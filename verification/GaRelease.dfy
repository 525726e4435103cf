/** The GA gate: the fail-fast certifier and the error-collecting readiness check over the same
    qualification ledger. */
module GaRelease {
  import opened HexSha
  import opened Options
  import opened Orders
  import opened Sorting
  import opened Sequences

  const VERSION := "1.0.0"

  /** A JSON value as far as the two scripts look at it. */
  datatype Value = Null | Bool(b: bool) | Number(n: real) | String(s: string) | Composite

  /** Python's `value == n`: true and false equal one and zero. */
  predicate EqualsInt(v: Value, n: int) {
    match v
    case Bool(b) => n == if b then 1 else 0
    case Number(x) => x == n as real
    case _ => false
  }

  predicate IsTrue(v: Value) { v == Bool(true) }
  predicate IsFalse(v: Value) { v == Bool(false) }

  /** `valid_sha` of the certifier: 64 lower-case hexadecimal characters. */
  predicate ValidSha(v: Value) {
    v.String? && IsSha(v.s)
  }

  /** The readiness check only looks at the type and the length. */
  predicate ShaLength(v: Value) {
    v.String? && |v.s| == 64
  }

  /** One qualification; an absent field is null, and a kind is a text or absent. */
  datatype Item = Item(
    kind: Option<string>, live: Value, synthetic: Value, complete: Value, failureCount: Value,
    subjectSha256: Value, certificateSha256: Value)

  datatype Ledger = Ledger(
    formatVersion: Value, releaseVersion: Value, complete: Value, releaseSha256: Value, qualifications: seq<Item>)

  predicate HeaderShape(l: Ledger) {
    EqualsInt(l.formatVersion, 1) && l.releaseVersion == String(VERSION) && IsTrue(l.complete)
  }

  predicate Live(item: Item, release: Value) {
    && IsTrue(item.live) && IsFalse(item.synthetic) && IsTrue(item.complete)
    && EqualsInt(item.failureCount, 0) && item.subjectSha256 == release
  }

  function KindOf(item: Item): Option<string> { item.kind }

  // ----- certify_ga_release: validate_qualifications

  /** What the certifier asks of one qualification, besides not repeating a kind. */
  function CertifierTest(required: set<string>, release: Value): Item -> bool {
    (item: Item) =>
      && item.kind.Some? && item.kind.value in required
      && Live(item, release) && ValidSha(item.certificateSha256)
  }

  /** The required kinds are a parameter: both scripts carry the same list. */
  predicate Certifiable(required: set<string>, l: Ledger) {
    && HeaderShape(l) && ValidSha(l.releaseSha256)
    && Distinct(Map(KindOf, l.qualifications))
    && Each(CertifierTest(required, l.releaseSha256), l.qualifications)
    && (forall kind :: kind in required ==> Some(kind) in Map(KindOf, l.qualifications))
  }

  method ValidateQualifications(required: set<string>, l: Ledger) returns (release: Option<string>)
    ensures release.Some? <==> Certifiable(required, l)
    ensures release.Some? ==> l.releaseSha256 == String(release.value)
  {
    if !HeaderShape(l) || !ValidSha(l.releaseSha256) { return None; }
    var seen := CertifyItems(l.qualifications, CertifierTest(required, l.releaseSha256));
    if seen.None? || exists kind :: kind in required && Some(kind) !in seen.value { return None; }
    return Some(l.releaseSha256.s);
  }

  /** The loop over the qualifications, which stops at the first bad one. */
  method CertifyItems(items: seq<Item>, ok: Item -> bool) returns (kinds: Option<set<Option<string>>>)
    ensures kinds == if Distinct(Map(KindOf, items)) && Each(ok, items) then Some(Members(Map(KindOf, items))) else None
  {
    var seen: set<Option<string>> := {};
    ghost var all := Map(KindOf, items);
    for i := 0 to |items|
      invariant seen == Members(all[..i]) && Distinct(all[..i])
      invariant forall j :: 0 <= j < i ==> ok(items[j])
    {
      assert all[i] == items[i].kind;
      DistinctPrefix(all, i);
      if items[i].kind in seen || !ok(items[i]) { return None; }
      seen := seen + {items[i].kind};
    }
    assert all[..|items|] == all;
    return Some(seen);
  }

  // ----- assess_ga_readiness: validate

  datatype Blocker =
    | BadHeader
    | Duplicate(kind: Option<string>)
    | NotLive(kind: Option<string>)
    | Missing(name: string)
    | Unknown(kind: Option<string>)

  predicate LiveEnough(item: Item, release: Value) {
    Live(item, release) && ShaLength(item.certificateSha256)
  }

  function ReadinessTest(release: Value): Item -> bool {
    (item: Item) => LiveEnough(item, release)
  }

  /** The blockers one pass over the qualifications appends. */
  function ItemBlockers(items: seq<Item>, ok: Item -> bool): seq<Blocker> {
    if items == [] then [] else
      var init, item := items[..|items|-1], items[|items|-1];
      ItemBlockers(init, ok) + BlockersOf(item, item.kind in Map(KindOf, init), ok)
  }

  function BlockersOf(item: Item, repeated: bool, ok: Item -> bool): seq<Blocker> {
    (if repeated then [Duplicate(item.kind)] else []) + (if ok(item) then [] else [NotLive(item.kind)])
  }

  lemma {:induction false} ItemBlockersSnoc(items: seq<Item>, i: nat, ok: Item -> bool)
    requires i < |items|
    ensures ItemBlockers(items[..i+1], ok)
      == ItemBlockers(items[..i], ok) + BlockersOf(items[i], items[i].kind in Map(KindOf, items[..i]), ok)
    ensures Map(KindOf, items[..i+1]) == Map(KindOf, items[..i]) + [items[i].kind]
    ensures Members(Map(KindOf, items[..i+1])) == Members(Map(KindOf, items[..i])) + {items[i].kind}
  {
    var s := items[..i+1];
    assert s[..i] == items[..i] && s == items[..i] + [items[i]];
    MapSnoc(KindOf, items[..i], items[i]);
  }

  function MissingBlockers(names: seq<string>): seq<Blocker> {
    Map(MissingOf, names)
  }

  function MissingOf(name: string): Blocker { Missing(name) }
  function UnknownOf(name: string): Blocker { Unknown(Some(name)) }

  function SeenNames(items: seq<Item>): set<string> {
    set i | 0 <= i < |items| && items[i].kind.Some? :: items[i].kind.value
  }

  predicate HasAbsentKind(items: seq<Item>) {
    exists i :: 0 <= i < |items| && items[i].kind.None?
  }

  /** The blocker list, or none when sorting a missing kind among unknown names raises. */
  function Blockers(required: set<string>, l: Ledger): Option<seq<Blocker>> {
    if !HeaderShape(l) || !ShaLength(l.releaseSha256) then Some([BadHeader])
    else
      var unknown := SortedSet(SeenNames(l.qualifications) - required);
      var found := ItemBlockers(l.qualifications, ReadinessTest(l.releaseSha256))
        + MissingBlockers(SortedSet(required - SeenNames(l.qualifications)));
      if !HasAbsentKind(l.qualifications) then Some(found + Map(UnknownOf, unknown))
      else if unknown == [] then Some(found + [Unknown(None)])
      else None
  }

  method Assess(required: set<string>, l: Ledger) returns (blockers: Option<seq<Blocker>>)
    ensures blockers == Blockers(required, l)
  {
    if !HeaderShape(l) || !ShaLength(l.releaseSha256) { return Some([BadHeader]); }
    var found, seen := AssessItems(l.qualifications, ReadinessTest(l.releaseSha256));
    SeenIsKinds(l.qualifications, seen);
    var names := set k | k in seen && k.Some? :: k.value;
    var unknown := SortedSet(names - required);
    found := found + MissingBlockers(SortedSet(required - names));
    if None !in seen { return Some(found + Map(UnknownOf, unknown)); }
    if unknown == [] { return Some(found + [Unknown(None)]); }
    return None;
  }

  /** The loop over the qualifications, which never stops early. */
  method AssessItems(items: seq<Item>, ok: Item -> bool) returns (found: seq<Blocker>, seen: set<Option<string>>)
    ensures found == ItemBlockers(items, ok) && seen == Members(Map(KindOf, items))
  {
    found, seen := [], {};
    for i := 0 to |items|
      invariant found == ItemBlockers(items[..i], ok)
      invariant seen == Members(Map(KindOf, items[..i]))
    {
      var item := items[i];
      AssessStep(items, i, ok, found, seen);
      if item.kind in seen { found := found + [Duplicate(item.kind)]; }
      seen := seen + {item.kind};
      if !ok(item) { found := found + [NotLive(item.kind)]; }
    }
    assert items[..|items|] == items;
  }

  lemma {:induction false} AssessStep(
      items: seq<Item>, i: nat, ok: Item -> bool, found: seq<Blocker>, seen: set<Option<string>>)
    requires i < |items| && found == ItemBlockers(items[..i], ok) && seen == Members(Map(KindOf, items[..i]))
    ensures ItemBlockers(items[..i+1], ok)
      == (if items[i].kind in seen then found + [Duplicate(items[i].kind)] else found)
         + (if ok(items[i]) then [] else [NotLive(items[i].kind)])
    ensures Members(Map(KindOf, items[..i+1])) == seen + {items[i].kind}
  {
    ItemBlockersSnoc(items, i, ok);
  }

  lemma {:induction false} SeenIsKinds(items: seq<Item>, seen: set<Option<string>>)
    requires seen == Members(Map(KindOf, items))
    ensures (set k | k in seen && k.Some? :: k.value) == SeenNames(items)
    ensures None in seen <==> HasAbsentKind(items)
  {
    var kinds := Map(KindOf, items);
    assert forall i :: 0 <= i < |items| ==> kinds[i] == KindOf(items[i]) && kinds[i] in kinds;
    forall name | name in SeenNames(items) ensures Some(name) in seen {
      var i :| 0 <= i < |items| && items[i].kind.Some? && items[i].kind.value == name;
      assert kinds[i] == Some(name);
    }
    forall k | k in seen && k.Some? ensures k.value in SeenNames(items) {
      var i :| 0 <= i < |kinds| && kinds[i] == k;
    }
  }

  // ----- agreement

  lemma {:induction false} NoItemBlockers(items: seq<Item>, ok: Item -> bool)
    ensures ItemBlockers(items, ok) == [] <==> Distinct(Map(KindOf, items)) && Each(ok, items)
    decreases |items|
  {
    if items != [] {
      var n := |items| - 1;
      var init := items[..n];
      NoItemBlockers(init, ok);
      ItemBlockersSnoc(items, n, ok);
      assert items[..n+1] == items;
      DistinctSnoc(Map(KindOf, init), items[n].kind);
      EachStep(ok, items, n);
      BlockersOfEmpty(items[n], items[n].kind in Map(KindOf, init), ok);
    }
  }

  lemma {:induction false} BlockersOfEmpty(item: Item, repeated: bool, ok: Item -> bool)
    ensures BlockersOf(item, repeated, ok) == [] <==> !repeated && ok(item)
  {
  }

  lemma {:induction false} NoBlockers(required: set<string>, l: Ledger)
    requires HeaderShape(l) && ShaLength(l.releaseSha256)
    ensures Blockers(required, l) == Some([]) <==>
      && ItemBlockers(l.qualifications, ReadinessTest(l.releaseSha256)) == []
      && SeenNames(l.qualifications) == required
      && !HasAbsentKind(l.qualifications)
  {
    var names := SeenNames(l.qualifications);
    var missing, unknown := SortedSet(required - names), SortedSet(names - required);
    var items, absent := ItemBlockers(l.qualifications, ReadinessTest(l.releaseSha256)), MissingBlockers(missing);
    EmptyExactly(required, names);
    assert |absent| == |missing| && |Map(UnknownOf, unknown)| == |unknown|;
    assert |items + absent + Map(UnknownOf, unknown)| == |items| + |missing| + |unknown|;
    assert |items + absent + [Unknown(None)]| > 0;
  }

  lemma {:induction false} EmptyExactly(a: set<string>, b: set<string>)
    ensures |SortedSet(a - b)| == 0 && |SortedSet(b - a)| == 0 <==> b == a
  {
    assert |a - b| == 0 <==> a - b == {};
    assert |b - a| == 0 <==> b - a == {};
    if a - b == {} && b - a == {} {
      assert forall x :: x in a ==> x !in a - b;
      assert forall x :: x in b ==> x !in b - a;
    }
  }

  /** The two scripts agree on every ledger: the certifier accepts exactly when the readiness
      check finds no blocker and the digests it only measures are also hexadecimal. */
  lemma {:induction false} CertifierAgreesWithReadiness(required: set<string>, l: Ledger)
    ensures Certifiable(required, l) <==>
      && Blockers(required, l) == Some([])
      && ValidSha(l.releaseSha256)
      && forall i :: 0 <= i < |l.qualifications| ==> ValidSha(l.qualifications[i].certificateSha256)
  {
    if HeaderShape(l) && ValidSha(l.releaseSha256) {
      NoBlockers(required, l);
      NoItemBlockers(l.qualifications, ReadinessTest(l.releaseSha256));
      CoverageAgrees(required, l.qualifications);
      TestsAgree(required, l.qualifications, l.releaseSha256);
    }
  }

  lemma {:induction false} TestsAgree(required: set<string>, items: seq<Item>, release: Value)
    ensures Each(CertifierTest(required, release), items) <==>
      && Each(ReadinessTest(release), items)
      && (forall i :: 0 <= i < |items| ==> ValidSha(items[i].certificateSha256))
      && (forall i :: 0 <= i < |items| ==> items[i].kind.Some? && items[i].kind.value in required)
  {
    forall i | 0 <= i < |items|
      ensures CertifierTest(required, release)(items[i]) <==>
        && ReadinessTest(release)(items[i]) && ValidSha(items[i].certificateSha256)
        && items[i].kind.Some? && items[i].kind.value in required
    {
    }
  }

  lemma {:induction false} CoverageAgrees(required: set<string>, items: seq<Item>)
    ensures (SeenNames(items) <= required && !HasAbsentKind(items))
      <==> forall i :: 0 <= i < |items| ==> items[i].kind.Some? && items[i].kind.value in required
    ensures required <= SeenNames(items) <==> forall kind :: kind in required ==> Some(kind) in Map(KindOf, items)
  {
    var kinds, names := Map(KindOf, items), SeenNames(items);
    assert forall i :: 0 <= i < |items| ==> kinds[i] == items[i].kind;
    forall i | 0 <= i < |items| && items[i].kind.Some? ensures items[i].kind.value in names {}
    forall kind | Some(kind) in kinds ensures kind in names {
      var i :| 0 <= i < |kinds| && kinds[i] == Some(kind);
    }
    forall kind | kind in names ensures Some(kind) in kinds {
      var i :| 0 <= i < |items| && items[i].kind.Some? && items[i].kind.value == kind;
      assert kinds[i] == Some(kind);
    }
  }

  /** The kinds both scripts require. */
  const KINDS: set<string> := {
    "rc1-acceptance", "sparql-correctness", "cross-domain-owl2-dl", "reasoning-correctness", "multinode-hpc",
    "autoscaling", "kubernetes-matrix", "cloud-trig-ingestion", "ha-chaos", "backup-restore", "upgrade-rollback",
    "enterprise-security", "query-logs", "performance-capacity", "operational-readiness",
    "production-runtime-audit", "security-license", "reproducible-build", "contract-freeze", "artifact-publication"}

  /** A live qualification of a release, with some certificate digest. */
  function LiveItem(release: string, certificate: string -> string): string -> Item {
    (kind: string) => LiveWith(kind, release, certificate(kind))
  }

  function LiveWith(kind: string, release: string, certificate: string): Item {
    Item(Some(kind), Bool(true), Bool(false), Bool(true), Number(0.0), String(release), String(certificate))
  }

  /** One live qualification of each required kind. */
  function LiveLedger(required: set<string>, release: string, certificate: string -> string): Ledger {
    Ledger(Number(1.0), String(VERSION), Bool(true), String(release),
           Map(LiveItem(release, certificate), SortedSet(required)))
  }

  /** A ledger that lists each required kind once, live, has no blockers. */
  lemma {:induction false} NothingBlocks(required: set<string>, l: Ledger, names: seq<string>)
    requires HeaderShape(l) && ShaLength(l.releaseSha256) && Each(ReadinessTest(l.releaseSha256), l.qualifications)
    requires Distinct(names) && Members(names) == required && |l.qualifications| == |names|
    requires forall i :: 0 <= i < |names| ==> l.qualifications[i].kind == Some(names[i])
    ensures Blockers(required, l) == Some([])
  {
    LiveKindsDistinct(l.qualifications, names);
    NoItemBlockers(l.qualifications, ReadinessTest(l.releaseSha256));
    NoBlockers(required, l);
  }

  lemma {:induction false} LiveItems(release: string, certificate: string -> string, names: seq<string>)
    requires forall kind :: kind in names ==> |certificate(kind)| == 64
    ensures var items := Map(LiveItem(release, certificate), names);
      && Each(ReadinessTest(String(release)), items)
      && forall i :: 0 <= i < |names| ==>
           items[i].kind == Some(names[i]) && items[i].certificateSha256 == String(certificate(names[i]))
  {
    var items := Map(LiveItem(release, certificate), names);
    forall i | 0 <= i < |names|
      ensures ReadinessTest(String(release))(items[i])
      ensures items[i].kind == Some(names[i]) && items[i].certificateSha256 == String(certificate(names[i]))
    {
      assert names[i] in names;
      assert items[i] == LiveItem(release, certificate)(names[i]);
    }
  }

  lemma {:induction false} LiveKindsDistinct(items: seq<Item>, names: seq<string>)
    requires |items| == |names| && Distinct(names) && forall i :: 0 <= i < |items| ==> items[i].kind == Some(names[i])
    ensures Distinct(Map(KindOf, items)) && SeenNames(items) == Members(names) && !HasAbsentKind(items)
  {
    var kinds := Map(KindOf, items);
    forall i, j | 0 <= i < j < |kinds| ensures kinds[i] != kinds[j] {
      assert names[i] != names[j];
    }
    forall name | name in names ensures name in SeenNames(items) {
      var i :| 0 <= i < |names| && names[i] == name;
      assert items[i].kind.value == name;
    }
  }

  /** They differ on exactly that. Whatever kinds are required, a ledger with one live qualification of
      each and 64-character certificate texts is publishable to the readiness check, and the certifier
      accepts it exactly when every one of them is lower-case hexadecimal. */
  lemma {:induction false} DigestFormSplitsThem(required: set<string>, release: string, certificate: string -> string)
    requires IsSha(release) && forall kind :: kind in required ==> |certificate(kind)| == 64
    ensures Blockers(required, LiveLedger(required, release, certificate)) == Some([])
    ensures Certifiable(required, LiveLedger(required, release, certificate))
      <==> forall kind :: kind in required ==> IsSha(certificate(kind))
  {
    var l, names := LiveLedger(required, release, certificate), SortedSet(required);
    LiveItems(release, certificate, names);
    assert Members(names) == required;
    NothingBlocks(required, l, names);
    CertifierAgreesWithReadiness(required, l);
    FormsAgree(required, l.qualifications, names, certificate);
  }

  lemma {:induction false} FormsAgree(
      required: set<string>, items: seq<Item>, names: seq<string>, certificate: string -> string)
    requires |items| == |names| && forall kind :: kind in required <==> kind in names
    requires forall i :: 0 <= i < |names| ==> items[i].certificateSha256 == String(certificate(names[i]))
    ensures (forall i :: 0 <= i < |items| ==> ValidSha(items[i].certificateSha256))
      <==> forall kind :: kind in required ==> IsSha(certificate(kind))
  {
    forall i | 0 <= i < |names| ensures names[i] in required {}
    if forall i :: 0 <= i < |items| ==> ValidSha(items[i].certificateSha256) {
      forall kind | kind in required ensures IsSha(certificate(kind)) {
        var i :| 0 <= i < |names| && names[i] == kind;
        assert ValidSha(items[i].certificateSha256);
      }
    }
  }

  const LOWER: string := seq(64, _ => 'a')
  const UPPER: string := seq(64, _ => 'A')

  /** An upper-case digest for one kind, and a good one for the others. */
  ghost function UpperFor(marked: string, good: string, bad: string): string -> string {
    (kind: string) => if kind == marked then bad else good
  }

  /** In particular, on the twenty kinds of the release one upper-case certificate digest makes a ledger
      that is publishable to one script and refused by the other. */
  lemma {:induction false} UpperCaseDigestSplitsThem(kind: string)
    requires kind in KINDS
    ensures Blockers(KINDS, LiveLedger(KINDS, LOWER, UpperFor(kind, LOWER, UPPER))) == Some([])
    ensures !Certifiable(KINDS, LiveLedger(KINDS, LOWER, UpperFor(kind, LOWER, UPPER)))
  {
    assert UPPER[0] == 'A' && !HexChar(UPPER[0]);
    assert UpperFor(kind, LOWER, UPPER)(kind) == UPPER;
    DigestFormSplitsThem(KINDS, LOWER, UpperFor(kind, LOWER, UPPER));
  }
}
