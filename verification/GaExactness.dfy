/** What the two GA scripts look for, spelled out on the fields of the ledger. */
module GaExactness {
  import opened HexSha
  import opened Options
  import opened Orders
  import opened Sorting
  import opened Sequences
  import opened GaRelease
  import A = GaArtifacts

  /** 64 characters of the lower-case hexadecimal alphabet. */
  predicate LowerHex(s: string) {
    |s| == 64 && forall i :: 0 <= i < |s| ==> s[i] in "0123456789abcdef"
  }

  lemma {:induction false} ShaIsLowerHex(s: string)
    ensures IsSha(s) <==> LowerHex(s)
  {
    forall i | 0 <= i < |s| ensures HexChar(s[i]) <==> s[i] in "0123456789abcdef" { HexAlphabet(s[i]); }
  }

  lemma {:induction false} HexAlphabet(c: char)
    ensures HexChar(c) <==> c in "0123456789abcdef"
  {
    var digits := "0123456789abcdef";
    if '0' <= c <= '9' { assert digits[c as int - '0' as int] == c; }
    if 'a' <= c <= 'f' { assert digits[c as int - 'a' as int + 10] == c; }
  }

  /** The header both scripts ask for, with this release digest. */
  predicate GoodHeader(l: Ledger, release: string) {
    && l.formatVersion in [Number(1.0), Bool(true)] && l.releaseVersion == String("1.0.0") && l.complete == Bool(true)
    && l.releaseSha256 == String(release)
  }

  /** Live, not synthetic, complete, without failures, and about this release. */
  predicate GoodEvidence(item: Item, release: string) {
    && item.live == Bool(true) && item.synthetic == Bool(false) && item.complete == Bool(true)
    && item.failureCount in [Number(0.0), Bool(false)] && item.subjectSha256 == String(release)
  }

  /** As many qualifications as kinds, and one for each kind. */
  ghost predicate OneForEach(items: seq<Item>, required: set<string>) {
    |items| == |required| && forall kind :: kind in required ==> HasKind(items, kind)
  }

  ghost predicate HasKind(items: seq<Item>, kind: string) {
    exists i :: 0 <= i < |items| && items[i].kind == Some(kind)
  }

  lemma {:induction false} HasKindListed(items: seq<Item>, kind: string)
    ensures HasKind(items, kind) <==> Some(kind) in Map(KindOf, items)
  {
    var kinds := Map(KindOf, items);
    assert forall i :: 0 <= i < |items| ==> kinds[i] == items[i].kind;
    if Some(kind) in kinds {
      var i :| 0 <= i < |kinds| && kinds[i] == Some(kind);
      assert items[i].kind == Some(kind);
    }
    if i :| 0 <= i < |items| && items[i].kind == Some(kind) {
      assert kinds[i] == Some(kind);
    }
  }

  /** The kinds as they are listed, each required one marked present. */
  function Present(required: set<string>): set<Option<string>> {
    set kind | kind in required :: Some(kind)
  }

  lemma {:induction false} PresentSize(required: set<string>)
    ensures |Present(required)| == |required|
  {
    if required != {} {
      var kind :| kind in required;
      PresentSize(required - {kind});
      assert Present(required) == Present(required - {kind}) + {Some(kind)};
    }
  }

  /** Different kinds, all of them required, each required one there: that is one for each. */
  lemma {:induction false} OneForEachExactly(items: seq<Item>, required: set<string>)
    ensures OneForEach(items, required) <==>
      && Distinct(Map(KindOf, items))
      && (forall i :: 0 <= i < |items| ==> items[i].kind.Some? && items[i].kind.value in required)
      && (forall kind :: kind in required ==> Some(kind) in Map(KindOf, items))
  {
    var kinds := Map(KindOf, items);
    var members := set x | x in kinds;
    forall kind ensures HasKind(items, kind) <==> Some(kind) in kinds { HasKindListed(items, kind); }
    assert forall i :: 0 <= i < |items| ==> kinds[i] == items[i].kind && kinds[i] in members;
    PresentSize(required);
    DistinctBySize(kinds);
    if forall kind :: kind in required ==> Some(kind) in kinds {
      SizeOfSubset(Present(required), members);
      if |items| == |required| {
        SubsetOfSameSize(Present(required), members);
      }
      if Distinct(kinds) && forall i :: 0 <= i < |items| ==> items[i].kind.Some? && items[i].kind.value in required {
        forall x | x in members ensures x in Present(required) {
          var i :| 0 <= i < |kinds| && kinds[i] == x;
        }
        assert members == Present(required);
      }
    }
  }

  lemma {:induction false} LiveExactly(item: Item, release: string)
    ensures Live(item, String(release)) <==> GoodEvidence(item, release)
  {
  }

  lemma {:induction false} HeaderExactly(l: Ledger, release: string)
    requires l.releaseSha256 == String(release)
    ensures HeaderShape(l) <==> GoodHeader(l, release)
  {
  }

  /** The certifier accepts exactly the ledgers with a good header and one good qualification for each kind. */
  lemma {:induction false} CertifiableExactly(required: set<string>, l: Ledger)
    ensures Certifiable(required, l) <==>
      exists release :: GoodHeader(l, release) && LowerHex(release) && OneForEach(l.qualifications, required)
        && forall i :: 0 <= i < |l.qualifications| ==> Certified(l.qualifications[i], release)
  {
    if l.releaseSha256.String? {
      var release := l.releaseSha256.s;
      HeaderExactly(l, release);
      ShaIsLowerHex(release);
      OneForEachExactly(l.qualifications, required);
      EachCertified(required, l.qualifications, release);
    }
  }

  predicate Certified(item: Item, release: string) {
    GoodEvidence(item, release) && item.certificateSha256.String? && LowerHex(item.certificateSha256.s)
  }

  lemma {:induction false} EachCertified(required: set<string>, items: seq<Item>, release: string)
    ensures Each(CertifierTest(required, String(release)), items) <==>
      && (forall i :: 0 <= i < |items| ==> Certified(items[i], release))
      && (forall i :: 0 <= i < |items| ==> items[i].kind.Some? && items[i].kind.value in required)
  {
    forall i | 0 <= i < |items|
      ensures CertifierTest(required, String(release))(items[i]) <==>
        Certified(items[i], release) && items[i].kind.Some? && items[i].kind.value in required
    {
      LiveExactly(items[i], release);
      if items[i].certificateSha256.String? { ShaIsLowerHex(items[i].certificateSha256.s); }
    }
  }

  // ----- the blocker list

  /** The readiness check only measures the digests. */
  predicate LongEnough(v: Value) {
    v.String? && |v.s| == 64
  }

  /** What the readiness check reports of one kind. */
  lemma {:induction false} ItemBlockersExactly(items: seq<Item>, ok: Item -> bool, b: Blocker)
    ensures b in ItemBlockers(items, ok) <==>
      || (exists i, j :: Repeats(items, i, j) && b == Duplicate(items[j].kind))
      || (exists i :: Fails(items, ok, i) && b == NotLive(items[i].kind))
    decreases |items|
  {
    if items != [] {
      var n := |items| - 1;
      var init := items[..n];
      ItemBlockersExactly(init, ok, b);
      ItemBlockersSnoc(items, n, ok);
      assert items[..n+1] == items;
      RepeatsInit(items, n, b);
      FailsInit(items, ok, n, b);
      KindAmong(init, items[n].kind);
    }
  }

  ghost predicate Repeats(items: seq<Item>, i: int, j: int) {
    0 <= i < j < |items| && items[i].kind == items[j].kind
  }

  ghost predicate Fails(items: seq<Item>, ok: Item -> bool, i: int) {
    0 <= i < |items| && !ok(items[i])
  }

  lemma {:induction false} KindAmong(items: seq<Item>, kind: Option<string>)
    ensures kind in Map(KindOf, items) <==> exists i :: 0 <= i < |items| && items[i].kind == kind
  {
    var kinds := Map(KindOf, items);
    if kind in kinds {
      var i :| 0 <= i < |kinds| && kinds[i] == kind;
      assert items[i].kind == kind;
    }
    if i :| 0 <= i < |items| && items[i].kind == kind { assert kinds[i] == kind; }
  }

  lemma {:induction false} RepeatsInit(items: seq<Item>, n: nat, b: Blocker)
    requires n + 1 == |items|
    ensures (exists i, j :: Repeats(items, i, j) && b == Duplicate(items[j].kind)) <==>
      || (exists i, j :: Repeats(items[..n], i, j) && b == Duplicate(items[..n][j].kind))
      || (b == Duplicate(items[n].kind) && exists i :: 0 <= i < n && items[..n][i].kind == items[n].kind)
  {
    var init := items[..n];
    assert forall i :: 0 <= i < n ==> init[i] == items[i];
    if i, j :| Repeats(items, i, j) && b == Duplicate(items[j].kind) {
      if j < n { assert Repeats(init, i, j); } else { assert init[i].kind == items[n].kind; }
    }
    if i, j :| Repeats(init, i, j) && b == Duplicate(init[j].kind) { assert Repeats(items, i, j); }
    if b == Duplicate(items[n].kind) && exists i :: 0 <= i < n && init[i].kind == items[n].kind {
      var i :| 0 <= i < n && init[i].kind == items[n].kind;
      assert Repeats(items, i, n);
    }
  }

  lemma {:induction false} FailsInit(items: seq<Item>, ok: Item -> bool, n: nat, b: Blocker)
    requires n + 1 == |items|
    ensures (exists i :: Fails(items, ok, i) && b == NotLive(items[i].kind)) <==>
      || (exists i :: Fails(items[..n], ok, i) && b == NotLive(items[..n][i].kind))
      || (b == NotLive(items[n].kind) && !ok(items[n]))
  {
    var init := items[..n];
    assert forall i :: 0 <= i < n ==> init[i] == items[i];
    if i :| Fails(items, ok, i) && b == NotLive(items[i].kind) {
      if i < n { assert Fails(init, ok, i); }
    }
    if i :| Fails(init, ok, i) && b == NotLive(init[i].kind) { assert Fails(items, ok, i); }
    if b == NotLive(items[n].kind) && !ok(items[n]) { assert Fails(items, ok, n); }
  }

  /** The qualification is good evidence with a certificate digest of the right length. */
  predicate Ready(item: Item, release: string) {
    GoodEvidence(item, release) && LongEnough(item.certificateSha256)
  }

  ghost predicate Stranger(items: seq<Item>, required: set<string>, i: int) {
    0 <= i < |items| && (items[i].kind.None? || items[i].kind.value !in required)
  }

  ghost predicate NotReady(items: seq<Item>, release: string, i: int) {
    0 <= i < |items| && !Ready(items[i], release)
  }

  /** One blocker of the list: a repeated kind, evidence that is not ready, a required kind that is missing,
      or a kind that is not required. */
  ghost predicate Blocks(required: set<string>, items: seq<Item>, release: string, b: Blocker) {
    || (exists i, j :: Repeats(items, i, j) && b == Duplicate(items[j].kind))
    || (exists i :: NotReady(items, release, i) && b == NotLive(items[i].kind))
    || (exists kind :: kind in required && !HasKind(items, kind) && b == Missing(kind))
    || (exists i :: Stranger(items, required, i) && b == Unknown(items[i].kind))
  }

  lemma {:induction false} ReadyExactly(items: seq<Item>, release: string, i: int)
    ensures Fails(items, ReadinessTest(String(release)), i) <==> NotReady(items, release, i)
  {
    if 0 <= i < |items| { LiveExactly(items[i], release); }
  }

  lemma {:induction false} SeenExactly(items: seq<Item>, kind: string)
    ensures kind in SeenNames(items) <==> HasKind(items, kind)
  {
  }

  lemma {:induction false} MissingExactly(items: seq<Item>, required: set<string>, b: Blocker)
    ensures b in MissingBlockers(SortedSet(required - SeenNames(items))) <==>
      exists kind :: kind in required && !HasKind(items, kind) && b == Missing(kind)
  {
    MapMember(MissingOf, SortedSet(required - SeenNames(items)), b);
    forall kind ensures kind in required - SeenNames(items) <==> kind in required && !HasKind(items, kind) {
      SeenExactly(items, kind);
    }
  }

  lemma {:induction false} StrangerNames(items: seq<Item>, required: set<string>, name: string)
    ensures name in SeenNames(items) - required <==>
      exists i :: Stranger(items, required, i) && items[i].kind == Some(name)
  {
    if name in SeenNames(items) - required {
      var i :| 0 <= i < |items| && items[i].kind.Some? && items[i].kind.value == name;
      assert Stranger(items, required, i);
    }
  }

  lemma {:induction false} UnknownExactly(items: seq<Item>, required: set<string>, b: Blocker)
    ensures b in Map(UnknownOf, SortedSet(SeenNames(items) - required)) <==>
      exists i :: Stranger(items, required, i) && items[i].kind.Some? && b == Unknown(items[i].kind)
  {
    MapMember(UnknownOf, SortedSet(SeenNames(items) - required), b);
    forall name ensures name in SeenNames(items) - required <==>
      exists i :: Stranger(items, required, i) && items[i].kind == Some(name)
    {
      StrangerNames(items, required, name);
    }
    if i :| Stranger(items, required, i) && items[i].kind.Some? && b == Unknown(items[i].kind) {
      assert items[i].kind.value in SeenNames(items) - required;
    }
  }

  /** The readiness check reports exactly what blocks; it cannot, and raises, exactly if some qualification
      has no kind and another has one that is not required. */
  lemma {:induction false} BlockersExactly(required: set<string>, l: Ledger, release: string)
    requires GoodHeader(l, release) && |release| == 64
    ensures Blockers(required, l).None? <==>
      && (exists i :: Stranger(l.qualifications, required, i) && l.qualifications[i].kind.None?)
      && (exists i :: Stranger(l.qualifications, required, i) && l.qualifications[i].kind.Some?)
    ensures Blockers(required, l).Some? ==> forall b :: b in Blockers(required, l).value <==>
      Blocks(required, l.qualifications, release, b)
  {
    HeaderExactly(l, release);
    AbsentExactly(required, l.qualifications);
    StrangersExactly(required, l.qualifications);
    if Blockers(required, l).Some? {
      forall b ensures b in Blockers(required, l).value <==> Blocks(required, l.qualifications, release, b) {
        BlockerListed(required, l, release, b);
        UnknownExactly(l.qualifications, required, b);
        UnknownParts(required, l.qualifications, b);
        NotReadyParts(required, l.qualifications, release, b);
      }
    }
  }

  /** Only the header is reported exactly if it is not good. */
  lemma {:induction false} BadHeaderExactly(required: set<string>, l: Ledger)
    ensures Blockers(required, l) == Some([BadHeader]) <==>
      !exists release :: GoodHeader(l, release) && |release| == 64
  {
    if l.releaseSha256.String? {
      HeaderExactly(l, l.releaseSha256.s);
      if HeaderShape(l) && |l.releaseSha256.s| == 64 {
        assert GoodHeader(l, l.releaseSha256.s);
        BlockersExactly(required, l, l.releaseSha256.s);
        assert Blockers(required, l).Some? ==> BadHeader !in Blockers(required, l).value;
        assert BadHeader in [BadHeader];
      }
    }
  }

  lemma {:induction false} BlockerListed(required: set<string>, l: Ledger, release: string, b: Blocker)
    requires HeaderShape(l) && l.releaseSha256 == String(release) && |release| == 64 && Blockers(required, l).Some?
    ensures b in Blockers(required, l).value <==>
      || b in ItemBlockers(l.qualifications, ReadinessTest(String(release)))
      || b in MissingBlockers(SortedSet(required - SeenNames(l.qualifications)))
      || b in Map(UnknownOf, SortedSet(SeenNames(l.qualifications) - required))
      || (HasAbsentKind(l.qualifications) && b == Unknown(None))
  {
    var unknown := SortedSet(SeenNames(l.qualifications) - required);
    if unknown == [] { assert Map(UnknownOf, unknown) == []; }
  }

  lemma {:induction false} NotReadyParts(required: set<string>, items: seq<Item>, release: string, b: Blocker)
    ensures Blocks(required, items, release, b) <==>
      || b in ItemBlockers(items, ReadinessTest(String(release)))
      || b in MissingBlockers(SortedSet(required - SeenNames(items)))
      || (exists i :: Stranger(items, required, i) && b == Unknown(items[i].kind))
  {
    ItemBlockersExactly(items, ReadinessTest(String(release)), b);
    forall i ensures Fails(items, ReadinessTest(String(release)), i) <==> NotReady(items, release, i) {
      ReadyExactly(items, release, i);
    }
    MissingExactly(items, required, b);
  }

  lemma {:induction false} AbsentExactly(required: set<string>, items: seq<Item>)
    ensures HasAbsentKind(items) <==> exists i :: Stranger(items, required, i) && items[i].kind.None?
  {
    if HasAbsentKind(items) {
      var i :| 0 <= i < |items| && items[i].kind.None?;
      assert Stranger(items, required, i);
    }
  }

  lemma {:induction false} StrangersExactly(required: set<string>, items: seq<Item>)
    ensures SortedSet(SeenNames(items) - required) != [] <==>
      exists i :: Stranger(items, required, i) && items[i].kind.Some?
  {
    var names := SortedSet(SeenNames(items) - required);
    if names != [] {
      assert names[0] in names;
      var i :| 0 <= i < |items| && items[i].kind.Some? && items[i].kind.value == names[0];
      assert Stranger(items, required, i);
    }
    if i :| Stranger(items, required, i) && items[i].kind.Some? {
      assert items[i].kind.value in SeenNames(items) - required;
      assert items[i].kind.value in names;
    }
  }

  lemma {:induction false} UnknownParts(required: set<string>, items: seq<Item>, b: Blocker)
    ensures (exists i :: Stranger(items, required, i) && b == Unknown(items[i].kind)) <==>
      || (exists i :: Stranger(items, required, i) && items[i].kind.Some? && b == Unknown(items[i].kind))
      || (HasAbsentKind(items) && b == Unknown(None))
  {
    AbsentExactly(required, items);
  }

  // ----- the artifact manifest

  /** `part in text` */
  ghost predicate Occurs(text: string, part: string) {
    exists before, after :: Around(text, before, part, after)
  }

  predicate Around(text: string, before: string, part: string, after: string) {
    text == before + (part + after)
  }

  lemma {:induction false} ContainsExactly(text: string, part: string)
    ensures A.Contains(text, part) <==> Occurs(text, part)
  {
    if part <= text {
      assert Around(text, [], part, text[|part|..]);
    } else if text != [] {
      ContainsExactly(text[1..], part);
      if before, after :| Around(text[1..], before, part, after) {
        assert Around(text, [text[0]] + before, part, after);
      }
      if before, after :| Around(text, before, part, after) {
        assert before != [];
        assert Around(text[1..], before[1..], part, after);
      }
    }
  }

  /** An image index in a registry is named by its digest; any other artifact is a file with the recorded digest,
      and outside the test harness its path is relative. */
  ghost predicate GoodPath(s: A.Setting, class_: string, path: string, sha: string) {
    if |path| >= 6 && path[..6] == "oci://" then class_ == "image-index" && Occurs(path, "@sha256:")
    else s.files(path) == Some(sha) && (s.testHarness || path == [] || path[0] != '/')
  }

  lemma {:induction false} PathExactly(s: A.Setting, a: A.Artifact)
    requires a.class_.Some? && a.path.Some? && a.sha256.String?
    ensures A.PathOk(s, a) <==> GoodPath(s, a.class_.value, a.path.value, a.sha256.s)
  {
    var path := a.path.value;
    ContainsExactly(path, "@sha256:");
    assert "oci://" <= path <==> |path| >= 6 && path[..6] == "oci://";
    assert "/" <= path <==> path != [] && path[0] == '/';
  }

  /** Of a required class, at a good path, with a digest and a signature, a media type, and immutable. */
  ghost predicate GoodArtifact(s: A.Setting, a: A.Artifact) {
    exists class_, path, sha, signature ::
      && a == A.Artifact(Some(class_), Some(path), String(sha), String(signature), true, Bool(true))
      && class_ in s.classes && LowerHex(sha) && LowerHex(signature) && GoodPath(s, class_, path, sha)
  }

  lemma {:induction false} ArtifactExactly(s: A.Setting, a: A.Artifact)
    ensures A.ArtifactOk(s, a) <==> GoodArtifact(s, a)
  {
    if a.class_.Some? && a.path.Some? && a.sha256.String? && a.signatureSha256.String? {
      var sha, signature := a.sha256.s, a.signatureSha256.s;
      PathExactly(s, a);
      ShaIsLowerHex(sha);
      ShaIsLowerHex(signature);
      if A.ArtifactOk(s, a) {
        assert a == A.Artifact(
          Some(a.class_.value), Some(a.path.value), String(sha), String(signature), true, Bool(true));
      }
    }
  }

  ghost predicate HasClass(xs: seq<A.Artifact>, class_: string) {
    exists i :: 0 <= i < |xs| && xs[i].class_ == Some(class_)
  }

  /** No two artifacts have the same class or the same path. */
  ghost predicate AllDifferent(xs: seq<A.Artifact>) {
    forall i, j :: 0 <= i < j < |xs| ==> xs[i].class_ != xs[j].class_ && xs[i].path != xs[j].path
  }

  lemma {:induction false} DifferentExactly(xs: seq<A.Artifact>)
    ensures Distinct(Map(A.ClassOf, xs)) && Distinct(Map(A.PathOf, xs)) <==> AllDifferent(xs)
  {
    var classes, paths := Map(A.ClassOf, xs), Map(A.PathOf, xs);
    assert forall i :: 0 <= i < |xs| ==> classes[i] == xs[i].class_ && paths[i] == xs[i].path;
  }

  lemma {:induction false} ClassListed(xs: seq<A.Artifact>, class_: string)
    ensures HasClass(xs, class_) <==> Some(class_) in Map(A.ClassOf, xs)
  {
    var classes := Map(A.ClassOf, xs);
    assert forall i :: 0 <= i < |xs| ==> classes[i] == xs[i].class_;
    if i :| 0 <= i < |xs| && xs[i].class_ == Some(class_) {
      assert classes[i] == Some(class_);
    }
  }

  /** The artifact check accepts exactly the manifests of this release with good, different artifacts, one of each
      class. */
  lemma {:induction false} ManifestExactly(s: A.Setting, m: A.Manifest, release: string)
    ensures A.ManifestAccepted(s, m, release) <==>
      && m.formatVersion in [Number(1.0), Bool(true)] && m.releaseVersion == String("1.0.0")
      && m.complete == Bool(true) && m.releaseSha256 == String(release)
      && (forall i :: 0 <= i < |m.artifacts| ==> GoodArtifact(s, m.artifacts[i]))
      && AllDifferent(m.artifacts)
      && forall class_ :: class_ in s.classes ==> HasClass(m.artifacts, class_)
  {
    DifferentExactly(m.artifacts);
    forall a ensures A.ArtifactTest(s)(a) <==> GoodArtifact(s, a) { ArtifactExactly(s, a); }
    forall class_ ensures HasClass(m.artifacts, class_) <==> Some(class_) in Map(A.ClassOf, m.artifacts) {
      ClassListed(m.artifacts, class_);
    }
  }
}
