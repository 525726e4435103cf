/** The signed GA artifact manifest: one artifact per required class, and a root digest that
    neither depends on the listing order nor lets two accepted manifests share a pre-image. */
module GaArtifacts {
  import opened Options
  import opened Orders
  import opened Sorting
  import opened Sequences
  import opened GaRelease

  const IMAGE_INDEX := "image-index"
  const NUL := '\0'

  /** One manifest row; an absent path or class is none, any other absent field is null. */
  datatype Artifact = Artifact(
    class_: Option<string>, path: Option<string>, sha256: Value, signatureSha256: Value,
    hasMediaType: bool, immutable: Value)

  datatype Manifest = Manifest(
    formatVersion: Value, releaseVersion: Value, releaseSha256: Value, complete: Value, artifacts: seq<Artifact>)

  /** The digest of the regular file at a path, if there is one. */
  type Files = string -> Option<string>

  datatype Setting = Setting(classes: set<string>, files: Files, testHarness: bool)

  predicate IsOci(path: string) {
    "oci://" <= path
  }

  predicate Contains(text: string, part: string) {
    part <= text || (text != [] && Contains(text[1..], part))
  }

  predicate PathOk(s: Setting, a: Artifact)
    requires a.path.Some? && a.sha256.String?
  {
    if IsOci(a.path.value) then a.class_ == Some(IMAGE_INDEX) && Contains(a.path.value, "@sha256:")
    else !(!s.testHarness && "/" <= a.path.value) && s.files(a.path.value) == Some(a.sha256.s)
  }

  predicate ArtifactOk(s: Setting, a: Artifact) {
    && a.class_.Some? && a.class_.value in s.classes
    && ValidSha(a.sha256) && ValidSha(a.signatureSha256) && a.hasMediaType && IsTrue(a.immutable)
    && a.path.Some? && PathOk(s, a)
  }

  function ArtifactTest(s: Setting): Artifact -> bool {
    (a: Artifact) => ArtifactOk(s, a)
  }

  function ClassOf(a: Artifact): Option<string> { a.class_ }
  function PathOf(a: Artifact): Option<string> { a.path }

  /** `row.get("path", "")` */
  function SortKey(a: Artifact): string {
    if a.path.Some? then a.path.value else ""
  }

  predicate ArtifactLe(a: Artifact, b: Artifact) {
    Le(SortKey(a), SortKey(b))
  }

  lemma {:induction false} ArtifactOrder()
    ensures TotalPreorder(ArtifactLe)
  {
    LeIsTotalOrder();
  }

  function SortArtifacts(xs: seq<Artifact>): (r: seq<Artifact>)
    ensures multiset(r) == multiset(xs) && SortedBy(r, ArtifactLe)
  {
    ArtifactOrder();
    SortBy(xs, ArtifactLe)
  }

  predicate Passes(test: Artifact -> bool, xs: seq<Artifact>) {
    Distinct(Map(ClassOf, xs)) && Distinct(Map(PathOf, xs)) && Each(test, xs)
  }

  /** What each row feeds the running hash. */
  function RowText(a: Artifact): string {
    if a.path.Some? && a.sha256.String? && a.signatureSha256.String?
    then a.path.value + ([NUL] + (a.sha256.s + ([NUL] + (a.signatureSha256.s + [NUL]))))
    else []
  }

  function RootText(xs: seq<Artifact>): string {
    if xs == [] then [] else RowText(xs[0]) + RootText(xs[1..])
  }

  predicate HeaderOk(m: Manifest, release: string) {
    && EqualsInt(m.formatVersion, 1) && m.releaseVersion == String(VERSION)
    && m.releaseSha256 == String(release) && IsTrue(m.complete)
  }

  predicate ManifestAccepted(s: Setting, m: Manifest, release: string) {
    && HeaderOk(m, release)
    && Passes(ArtifactTest(s), m.artifacts)
    && forall c :: c in s.classes ==> Some(c) in Map(ClassOf, m.artifacts)
  }

  /** The loop over the sorted rows, with the `classes` and `paths` sets and the running hash. */
  method HashRows(test: Artifact -> bool, xs: seq<Artifact>) returns (root: Option<string>, seen: set<Option<string>>)
    ensures root == if Passes(test, xs) then Some(RootText(xs)) else None
    ensures root.Some? ==> seen == Members(Map(ClassOf, xs))
  {
    var text: string, paths: set<Option<string>> := [], {};
    seen := {};
    assert xs[0..] == xs && xs[..0] == [];
    for i := 0 to |xs|
      invariant Passes(test, xs[..i])
      invariant seen == Members(Map(ClassOf, xs[..i])) && paths == Members(Map(PathOf, xs[..i]))
      invariant text + RootText(xs[i..]) == RootText(xs)
    {
      var item := xs[i];
      PassesStep(test, xs, i);
      if item.class_ in seen || item.path in paths || !test(item) { return None, seen; }
      seen, paths := seen + {item.class_}, paths + {item.path};
      RootStep(text, xs, i);
      text := text + RowText(item);
    }
    assert xs[..|xs|] == xs && xs[|xs|..] == [] && text + [] == text;
    return Some(text), seen;
  }

  /** The tests of one turn of the loop: either the next prefix passes too, or no list from here on can. */
  lemma {:induction false} PassesStep(test: Artifact -> bool, xs: seq<Artifact>, i: nat)
    requires i < |xs| && Passes(test, xs[..i])
    ensures Members(Map(ClassOf, xs[..i+1])) == Members(Map(ClassOf, xs[..i])) + {xs[i].class_}
    ensures Members(Map(PathOf, xs[..i+1])) == Members(Map(PathOf, xs[..i])) + {xs[i].path}
    ensures xs[i].class_ !in Map(ClassOf, xs[..i]) && xs[i].path !in Map(PathOf, xs[..i]) && test(xs[i])
            ==> Passes(test, xs[..i+1])
    ensures Passes(test, xs)
            ==> xs[i].class_ !in Map(ClassOf, xs[..i]) && xs[i].path !in Map(PathOf, xs[..i]) && test(xs[i])
  {
    MapPrefix(ClassOf, xs, i);
    MapPrefix(PathOf, xs, i);
    EachStep(test, xs, i);
  }

  lemma {:induction false} RootStep(text: string, xs: seq<Artifact>, i: nat)
    requires i < |xs|
    ensures text + RowText(xs[i]) + RootText(xs[i+1..]) == text + RootText(xs[i..])
  {
    assert xs[i..][1..] == xs[i+1..];
  }

  /** `validate_artifacts`, up to the final `hexdigest` of the text it hashed. */
  method ValidateArtifacts(s: Setting, m: Manifest, release: string) returns (root: Option<string>)
    ensures root == if ManifestAccepted(s, m, release) then Some(RootText(SortArtifacts(m.artifacts))) else None
  {
    if !HeaderOk(m, release) { return None; }
    var sorted := SortArtifacts(m.artifacts);
    var seen;
    root, seen := HashRows(ArtifactTest(s), sorted);
    SameOutcome(ArtifactTest(s), sorted, m.artifacts);
    if root.None? { return None; }
    if exists c :: c in s.classes && Some(c) !in seen { return None; }
  }

  // ----- the listing order is irrelevant

  lemma {:induction false} SameOutcome(test: Artifact -> bool, a: seq<Artifact>, b: seq<Artifact>)
    requires multiset(a) == multiset(b)
    ensures Passes(test, a) <==> Passes(test, b)
    ensures forall c :: c in Map(ClassOf, a) <==> c in Map(ClassOf, b)
  {
    PassesEither(test, a, b);
    PassesEither(test, b, a);
    MapPermutation(ClassOf, a, b);
    SameMembers(Map(ClassOf, a), Map(ClassOf, b));
  }

  lemma {:induction false} PassesEither(test: Artifact -> bool, a: seq<Artifact>, b: seq<Artifact>)
    requires multiset(a) == multiset(b)
    ensures Passes(test, a) ==> Passes(test, b)
  {
    if Passes(test, a) {
      MapPermutation(ClassOf, a, b);
      MapPermutation(PathOf, a, b);
      DistinctPermutation(Map(ClassOf, a), Map(ClassOf, b));
      DistinctPermutation(Map(PathOf, a), Map(PathOf, b));
      EachPermutation(test, a, b);
    }
  }

  /** Every reordering of a manifest gets the same verdict and the same root. */
  lemma {:induction false} RootForgetsOrder(s: Setting, a: Manifest, b: Manifest, release: string)
    requires a.(artifacts := b.artifacts) == b && multiset(a.artifacts) == multiset(b.artifacts)
    ensures ManifestAccepted(s, a, release) <==> ManifestAccepted(s, b, release)
    ensures ManifestAccepted(s, a, release) ==> SortArtifacts(a.artifacts) == SortArtifacts(b.artifacts)
  {
    SameOutcome(ArtifactTest(s), a.artifacts, b.artifacts);
    if ManifestAccepted(s, a, release) {
      var x, y := SortArtifacts(a.artifacts), SortArtifacts(b.artifacts);
      SameOutcome(ArtifactTest(s), a.artifacts, x);
      DistinctPathsOrder(s, x);
      SortedUnique(x, y, ArtifactLe);
    }
  }

  lemma {:induction false} DistinctPathsOrder(s: Setting, xs: seq<Artifact>)
    requires Passes(ArtifactTest(s), xs)
    ensures forall a, b :: a in xs && b in xs && ArtifactLe(a, b) && ArtifactLe(b, a) ==> a == b
  {
    var paths := Map(PathOf, xs);
    forall a, b | a in xs && b in xs && ArtifactLe(a, b) && ArtifactLe(b, a) ensures a == b {
      LeAntisymmetric(SortKey(a), SortKey(b));
      var i :| 0 <= i < |xs| && xs[i] == a;
      var j :| 0 <= j < |xs| && xs[j] == b;
      assert ArtifactTest(s)(xs[i]) && ArtifactTest(s)(xs[j]);
      assert paths[i] == paths[j];
      assert i == j;
    }
  }

  /** An accepted manifest has exactly one artifact of each required class, and no other. */
  lemma {:induction false} OneArtifactPerClass(s: Setting, m: Manifest, release: string)
    requires ManifestAccepted(s, m, release)
    ensures forall c :: c in s.classes ==> exists i :: 0 <= i < |m.artifacts| && m.artifacts[i].class_ == Some(c)
    ensures forall i :: 0 <= i < |m.artifacts| ==>
      m.artifacts[i].class_.Some? && m.artifacts[i].class_.value in s.classes
    ensures forall i, j :: 0 <= i < j < |m.artifacts| ==> m.artifacts[i].class_ != m.artifacts[j].class_
    ensures |m.artifacts| == |s.classes|
  {
    var xs, classes := m.artifacts, Map(ClassOf, m.artifacts);
    forall c | c in s.classes ensures exists i :: 0 <= i < |xs| && xs[i].class_ == Some(c) {
      var i :| 0 <= i < |classes| && classes[i] == Some(c);
      assert xs[i].class_ == Some(c);
    }
    forall i | 0 <= i < |xs| ensures xs[i].class_.Some? && xs[i].class_.value in s.classes {
      assert ArtifactTest(s)(xs[i]);
    }
    forall i, j | 0 <= i < j < |xs| ensures xs[i].class_ != xs[j].class_ {
      assert classes[i] != classes[j];
    }
    forall i | 0 <= i < |xs| ensures classes[i].Some? && classes[i].value in s.classes {
      assert classes[i] == xs[i].class_;
    }
    ClassCount(s.classes, classes);
  }

  function Given(c: string): Option<string> { Some(c) }

  lemma {:induction false} ClassCount(required: set<string>, classes: seq<Option<string>>)
    requires Distinct(classes)
    requires forall i :: 0 <= i < |classes| ==> classes[i].Some? && classes[i].value in required
    requires forall c :: c in required ==> Some(c) in classes
    ensures |classes| == |required|
  {
    var sorted := SortedSet(required);
    var names := Map(Given, sorted);
    assert forall k :: 0 <= k < |sorted| ==> names[k] == Some(sorted[k]);
    NamesCovered(required, sorted, names, classes);
    NamesCover(required, sorted, names, classes);
    DistinctSameBag(names, classes);
  }

  lemma {:induction false} NamesCovered(
      required: set<string>, sorted: seq<string>, names: seq<Option<string>>, classes: seq<Option<string>>)
    requires forall c :: c in required ==> Some(c) in classes
    requires forall c :: c in sorted ==> c in required
    requires |names| == |sorted| && forall k :: 0 <= k < |sorted| ==> names[k] == Some(sorted[k])
    ensures forall x :: x in names ==> x in classes
  {
    forall x | x in names ensures x in classes {
      var i :| 0 <= i < |names| && names[i] == x;
      assert sorted[i] in required;
    }
  }

  lemma {:induction false} NamesCover(
      required: set<string>, sorted: seq<string>, names: seq<Option<string>>, classes: seq<Option<string>>)
    requires forall i :: 0 <= i < |classes| ==> classes[i].Some? && classes[i].value in required
    requires forall c :: c in required ==> c in sorted
    requires |names| == |sorted| && forall k :: 0 <= k < |sorted| ==> names[k] == Some(sorted[k])
    ensures forall x :: x in classes ==> x in names
  {
    forall x | x in classes ensures x in names {
      var i :| 0 <= i < |classes| && classes[i] == x;
      assert x.value in sorted;
      var k :| 0 <= k < |sorted| && sorted[k] == x.value;
      assert names[k] == x;
    }
  }

  // ----- the hashed text determines the artifacts

  /** No file has a NUL in its path. */
  ghost predicate NoNulFiles(files: Files) {
    forall p :: NUL in p ==> files(p).None?
  }

  /** What the root binds of an artifact. */
  datatype Entry = Entry(path: string, sha256: string, signature: string)

  predicate EntryOk(e: Entry) {
    |e.sha256| == 64 && |e.signature| == 64
  }

  predicate Plain(e: Entry) {
    EntryOk(e) && NUL !in e.path
  }

  function Tail(e: Entry): string {
    [NUL] + (e.sha256 + ([NUL] + (e.signature + [NUL])))
  }

  function EntryText(e: Entry): string {
    e.path + Tail(e)
  }

  function EntriesText(es: seq<Entry>): string {
    if es == [] then [] else EntryText(es[0]) + EntriesText(es[1..])
  }

  lemma {:induction false} TailCut(d: Entry, e: Entry)
    requires EntryOk(d) && EntryOk(e) && Tail(d) == Tail(e)
    ensures d.sha256 == e.sha256 && d.signature == e.signature
  {
    var s, t := Tail(d), Tail(e);
    assert s[1..65] == d.sha256 && t[1..65] == e.sha256;
    assert s[66..130] == d.signature && t[66..130] == e.signature;
  }

  /** The last NUL before the fixed tail ends whatever came before a plain path. */
  lemma {:induction false} CutAtLastNul(a: string, b: string, p: string, q: string)
    requires a + [NUL] + p == b + [NUL] + q
    requires NUL !in p && NUL !in q
    ensures a == b && p == q
  {
    var s := a + [NUL] + p;
    assert s[|a|] == NUL && s[|b|] == NUL;
    AfterTheNul(a, p);
    AfterTheNul(b, q);
    assert |a| == |b|;
    Cut(a + [NUL], b + [NUL], p, q);
    Cut(a, b, [NUL], [NUL]);
  }

  lemma {:induction false} AfterTheNul(a: string, p: string)
    requires NUL !in p
    ensures forall k :: |a| < k < |a + [NUL] + p| ==> (a + [NUL] + p)[k] != NUL
  {
    var s := a + [NUL] + p;
    forall k | |a| < k < |s| ensures s[k] != NUL {
      assert s[k] == p[k - |a| - 1] && p[k - |a| - 1] in p;
    }
  }

  lemma {:induction false} EntriesSnoc(es: seq<Entry>, e: Entry)
    ensures EntriesText(es + [e]) == EntriesText(es) + EntryText(e)
  {
    if es == [] {
      assert es + [e] == [e] && [e][1..] == [];
      assert EntriesText([e]) == EntryText(e);
    } else {
      EntriesSnoc(es[1..], e);
      assert (es + [e])[1..] == es[1..] + [e];
      Associate(EntryText(es[0]), EntriesText(es[1..]), EntryText(e));
    }
  }

  lemma {:induction false} EndsInNul(a: string, es: seq<Entry>) returns (before: string)
    requires a != [] && a[|a|-1] == NUL
    ensures a + EntriesText(es) == before + [NUL]
    decreases |es|
  {
    if es == [] {
      before := a[..|a|-1];
    } else {
      var next := a + EntryText(es[0]);
      assert next[|next|-1] == NUL;
      before := EndsInNul(next, es[1..]);
      Associate(a, EntryText(es[0]), EntriesText(es[1..]));
    }
  }

  /** Reading from the right: behind two texts that end in a NUL, equally many plain entries agree. */
  lemma {:induction false} PlainSuffix(a: string, b: string, ds: seq<Entry>, es: seq<Entry>)
    requires a != [] && b != [] && a[|a|-1] == NUL && b[|b|-1] == NUL
    requires |ds| == |es|
    requires forall i :: 0 <= i < |ds| ==> Plain(ds[i]) && Plain(es[i])
    requires a + EntriesText(ds) == b + EntriesText(es)
    ensures a == b && ds == es
    decreases |ds|
  {
    if ds == [] {
      assert a + [] == a && b + [] == b;
    } else {
      var n := |ds| - 1;
      var d, e, ds', es' := ds[n], es[n], ds[..n], es[..n];
      assert ds == ds' + [d] && es == es' + [e];
      assert forall i :: 0 <= i < n ==> ds'[i] == ds[i] && es'[i] == es[i];
      var x := EndsInNul(a, ds');
      var y := EndsInNul(b, es');
      LastEntry(a, ds', d, x);
      LastEntry(b, es', e, y);
      LastEntriesAgree(x, y, d, e);
      PlainSuffix(a, b, ds', es');
    }
  }

  lemma {:induction false} LastEntry(a: string, ds: seq<Entry>, d: Entry, x: string)
    requires a + EntriesText(ds) == x + [NUL]
    ensures a + EntriesText(ds + [d]) == (x + [NUL] + d.path) + Tail(d)
  {
    EntriesSnoc(ds, d);
    Associate(a, EntriesText(ds), EntryText(d));
    Associate(x + [NUL], d.path, Tail(d));
  }

  lemma {:induction false} LastEntriesAgree(x: string, y: string, d: Entry, e: Entry)
    requires Plain(d) && Plain(e)
    requires (x + [NUL] + d.path) + Tail(d) == (y + [NUL] + e.path) + Tail(e)
    ensures x == y && d == e
  {
    assert |Tail(d)| == |Tail(e)|;
    Cut(x + [NUL] + d.path, y + [NUL] + e.path, Tail(d), Tail(e));
    TailCut(d, e);
    CutAtLastNul(x, y, d.path, e.path);
  }

  /** At most one entry may hold a NUL in its path, and that one starts like an OCI reference. */
  predicate OneReference(es: seq<Entry>) {
    && (forall i :: 0 <= i < |es| ==> EntryOk(es[i]) && (Plain(es[i]) || IsOci(es[i].path)))
    && (forall i, j :: 0 <= i < j < |es| ==> !IsOci(es[i].path) || !IsOci(es[j].path))
  }

  lemma {:induction false} EntriesCut(ds: seq<Entry>, es: seq<Entry>)
    requires |ds| == |es| && OneReference(ds) && OneReference(es)
    requires EntriesText(ds) == EntriesText(es)
    ensures ds == es
    decreases |ds|
  {
    if ds != [] {
      var d, e, x, y := ds[0], es[0], EntriesText(ds[1..]), EntriesText(es[1..]);
      assert EntryText(d) + x == EntryText(e) + y;
      if Plain(d) && Plain(e) {
        PlainHeads(d, e, x, y);
        OneReferenceTail(ds);
        OneReferenceTail(es);
        EntriesCut(ds[1..], es[1..]);
      } else {
        OciHeads(d, e, x, y);
        OnlyTheHead(ds);
        OnlyTheHead(es);
        PlainSuffix(EntryText(d), EntryText(e), ds[1..], es[1..]);
        SameEntry(d, e);
      }
      assert ds == [d] + ds[1..] && es == [e] + es[1..];
    }
  }

  lemma {:induction false} PlainHeads(d: Entry, e: Entry, x: string, y: string)
    requires Plain(d) && Plain(e) && EntryText(d) + x == EntryText(e) + y
    ensures d == e && x == y
  {
    var s, t := Tail(d)[1..] + x, Tail(e)[1..] + y;
    assert EntryText(d) + x == d.path + [NUL] + s;
    assert EntryText(e) + y == e.path + [NUL] + t;
    CutAtMark(NUL, d.path, e.path, s, t);
    Cut(Tail(d)[1..], Tail(e)[1..], x, y);
    assert Tail(d) == [NUL] + Tail(d)[1..] && Tail(e) == [NUL] + Tail(e)[1..];
    TailCut(d, e);
  }

  /** If one of two aligned entries is an OCI reference then so is the other. */
  lemma {:induction false} OciHeads(d: Entry, e: Entry, x: string, y: string)
    requires IsOci(d.path) || IsOci(e.path)
    requires EntryText(d) + x == EntryText(e) + y
    ensures IsOci(d.path) && IsOci(e.path)
  {
    if IsOci(d.path) {
      OciStart(d, e, x, y);
    } else {
      OciStart(e, d, y, x);
    }
  }

  lemma {:induction false} OciStart(d: Entry, e: Entry, x: string, y: string)
    requires IsOci(d.path)
    requires EntryText(d) + x == EntryText(e) + y
    ensures IsOci(e.path)
  {
    var s, mark := EntryText(e) + y, "oci://";
    forall k | 0 <= k < 6 ensures s[k] == mark[k] {
      assert (EntryText(d) + x)[k] == d.path[k];
    }
    assert |e.path| < |s| && s[|e.path|] == NUL;
    assert forall k :: 0 <= k < 6 ==> mark[k] != NUL;
    assert |e.path| >= 6;
    forall k | 0 <= k < 6 ensures e.path[k] == mark[k] {
      assert s[k] == e.path[k];
    }
    assert e.path[..6] == mark;
  }

  lemma {:induction false} OneReferenceTail(es: seq<Entry>)
    requires OneReference(es) && es != []
    ensures OneReference(es[1..])
  {
    var t := es[1..];
    forall i | 0 <= i < |t| ensures EntryOk(t[i]) && (Plain(t[i]) || IsOci(t[i].path)) {
      assert t[i] == es[i+1];
    }
    forall i, j | 0 <= i < j < |t| ensures !IsOci(t[i].path) || !IsOci(t[j].path) {
      assert t[i] == es[i+1] && t[j] == es[j+1];
    }
  }

  lemma {:induction false} OnlyTheHead(es: seq<Entry>)
    requires OneReference(es) && es != [] && IsOci(es[0].path)
    ensures forall i :: 0 <= i < |es[1..]| ==> Plain(es[1..][i])
    ensures EntryText(es[0]) != [] && EntryText(es[0])[|EntryText(es[0])| - 1] == NUL
  {
    forall i | 0 <= i < |es[1..]| ensures Plain(es[1..][i]) {
      assert es[1..][i] == es[i+1];
      assert !IsOci(es[0].path) || !IsOci(es[i+1].path);
    }
  }

  lemma {:induction false} SameEntry(d: Entry, e: Entry)
    requires EntryOk(d) && EntryOk(e) && EntryText(d) == EntryText(e)
    ensures d == e
  {
    Cut(d.path, e.path, Tail(d), Tail(e));
    TailCut(d, e);
  }

  function TextOf(v: Value): string {
    if v.String? then v.s else ""
  }

  function EntryOf(a: Artifact): Entry {
    Entry(SortKey(a), TextOf(a.sha256), TextOf(a.signatureSha256))
  }

  lemma {:induction false} RootAsEntries(s: Setting, xs: seq<Artifact>)
    requires forall i :: 0 <= i < |xs| ==> ArtifactTest(s)(xs[i])
    ensures RootText(xs) == EntriesText(Map(EntryOf, xs))
  {
    if xs != [] {
      assert ArtifactTest(s)(xs[0]);
      RootAsEntries(s, xs[1..]);
      assert Map(EntryOf, xs)[1..] == Map(EntryOf, xs[1..]);
    }
  }

  lemma {:induction false} AcceptedEntries(s: Setting, xs: seq<Artifact>)
    requires NoNulFiles(s.files)
    requires Passes(ArtifactTest(s), xs)
    ensures OneReference(Map(EntryOf, xs))
  {
    var es, classes := Map(EntryOf, xs), Map(ClassOf, xs);
    forall i | 0 <= i < |es| ensures EntryOk(es[i]) && (Plain(es[i]) || IsOci(es[i].path)) {
      assert ArtifactTest(s)(xs[i]);
    }
    forall i, j | 0 <= i < j < |es| ensures !IsOci(es[i].path) || !IsOci(es[j].path) {
      assert ArtifactTest(s)(xs[i]) && ArtifactTest(s)(xs[j]);
      assert classes[i] != classes[j];
    }
  }

  /** Two accepted manifests that hash the same text bind the same paths to the same digests and
      signatures, in the same order. */
  lemma {:induction false} RootBindsArtifacts(s: Setting, a: Manifest, b: Manifest, r: string, q: string)
    requires NoNulFiles(s.files)
    requires ManifestAccepted(s, a, r) && ManifestAccepted(s, b, q)
    requires RootText(SortArtifacts(a.artifacts)) == RootText(SortArtifacts(b.artifacts))
    ensures Map(EntryOf, SortArtifacts(a.artifacts)) == Map(EntryOf, SortArtifacts(b.artifacts))
    ensures multiset(Map(EntryOf, a.artifacts)) == multiset(Map(EntryOf, b.artifacts))
  {
    SortedEntries(s, a, r);
    SortedEntries(s, b, q);
    EntriesCut(Map(EntryOf, SortArtifacts(a.artifacts)), Map(EntryOf, SortArtifacts(b.artifacts)));
    MapPermutation(EntryOf, a.artifacts, SortArtifacts(a.artifacts));
    MapPermutation(EntryOf, b.artifacts, SortArtifacts(b.artifacts));
  }

  lemma {:induction false} SortedEntries(s: Setting, m: Manifest, release: string)
    requires NoNulFiles(s.files)
    requires ManifestAccepted(s, m, release)
    ensures |SortArtifacts(m.artifacts)| == |s.classes|
    ensures OneReference(Map(EntryOf, SortArtifacts(m.artifacts)))
    ensures RootText(SortArtifacts(m.artifacts)) == EntriesText(Map(EntryOf, SortArtifacts(m.artifacts)))
  {
    var xs := SortArtifacts(m.artifacts);
    OneArtifactPerClass(s, m, release);
    SameMembers(xs, m.artifacts);
    PassesEither(ArtifactTest(s), m.artifacts, xs);
    AcceptedEntries(s, xs);
    RootAsEntries(s, xs);
  }
}
