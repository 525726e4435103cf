/** Loading the W3C manifests: RDF lists with cycle detection, and the include walk that shares
    one `seen` set over all roots. */
module ManifestWalk {
  import opened Options
  import opened Sorting

  const NIL := "http://www.w3.org/1999/02/22-rdf-syntax-ns#nil"

  /** The `rdf:first` and `rdf:rest` values of one graph, and the nodes Python takes for false. */
  datatype ListGraph = ListGraph(first: map<string, string>, rest: map<string, string>, falsy: set<string>)

  predicate Ends(g: ListGraph, node: string) {
    node == NIL || node in g.falsy
  }

  // ----- list_items

  /** `items` is the list that starts at `head`: the reference meaning, without a `seen` set. */
  ghost predicate IsList(g: ListGraph, head: string, items: seq<string>)
    decreases |items|
  {
    if Ends(g, head) then items == []
    else
      && head in g.first && head in g.rest
      && items != [] && items[0] == g.first[head]
      && IsList(g, g.rest[head], items[1..])
  }

  /** The items from `node` on, giving up on a node already visited or a missing value. */
  function ItemsFrom(g: ListGraph, node: string, seen: set<string>): Option<seq<string>>
    decreases g.first.Keys - seen
  {
    if Ends(g, node) then Some([])
    else if node in seen || node !in g.first || node !in g.rest then None
    else
      var tail := ItemsFrom(g, g.rest[node], seen + {node});
      if tail.None? then None else Some([g.first[node]] + tail.value)
  }

  function Items(g: ListGraph, head: string): Option<seq<string>> {
    ItemsFrom(g, head, {})
  }

  method ListItems(g: ListGraph, head: string) returns (values: Option<seq<string>>)
    ensures values == Items(g, head)
  {
    var found: seq<string>, seen: set<string>, node := [], {}, head;
    ghost var whole := Items(g, head);
    assert whole.Some? ==> [] + whole.value == whole.value;
    while !Ends(g, node)
      invariant Items(g, head) ==
        var tail := ItemsFrom(g, node, seen); if tail.None? then None else Some(found + tail.value)
      decreases g.first.Keys - seen
    {
      if node in seen { return None; }
      if node !in g.first || node !in g.rest { return None; }
      ghost var tail := ItemsFrom(g, g.rest[node], seen + {node});
      assert tail.Some? ==> found + ([g.first[node]] + tail.value) == (found + [g.first[node]]) + tail.value;
      seen := seen + {node};
      found := found + [g.first[node]];
      node := g.rest[node];
    }
    assert found + [] == found;
    return Some(found);
  }

  lemma {:induction false} ListUnique(g: ListGraph, head: string, a: seq<string>, b: seq<string>)
    requires IsList(g, head, a) && IsList(g, head, b)
    ensures a == b
    decreases |a|
  {
    if !Ends(g, head) {
      ListUnique(g, g.rest[head], a[1..], b[1..]);
      assert a == [a[0]] + a[1..] && b == [b[0]] + b[1..];
    }
  }

  /** The node a well-formed list is at after `k` steps. */
  ghost function NodeAt(g: ListGraph, head: string, items: seq<string>, k: nat): string
    requires IsList(g, head, items) && k <= |items|
    decreases k
  {
    if k == 0 then head else NodeAt(g, g.rest[head], items[1..], k - 1)
  }

  lemma {:induction false} NodeAtHoldsSuffix(g: ListGraph, head: string, items: seq<string>, k: nat)
    requires IsList(g, head, items) && k <= |items|
    ensures IsList(g, NodeAt(g, head, items, k), items[k..])
    decreases k
  {
    if k == 0 {
      assert items[0..] == items;
    } else {
      NodeAtHoldsSuffix(g, g.rest[head], items[1..], k - 1);
      assert items[1..][k-1..] == items[k..];
    }
  }

  /** A well-formed list never visits its head again. */
  lemma {:induction false} NoReturn(g: ListGraph, head: string, items: seq<string>, k: nat)
    requires IsList(g, head, items) && 0 < k <= |items|
    ensures NodeAt(g, head, items, k) != head
  {
    NodeAtHoldsSuffix(g, head, items, k);
    if NodeAt(g, head, items, k) == head {
      ListUnique(g, head, items, items[k..]);
    }
  }

  lemma {:induction false} ItemsFromSound(g: ListGraph, node: string, seen: set<string>)
    requires ItemsFrom(g, node, seen).Some?
    ensures IsList(g, node, ItemsFrom(g, node, seen).value)
    decreases g.first.Keys - seen
  {
    if !Ends(g, node) {
      ItemsFromSound(g, g.rest[node], seen + {node});
      var tail := ItemsFrom(g, g.rest[node], seen + {node}).value;
      assert ([g.first[node]] + tail)[1..] == tail;
    }
  }

  lemma {:induction false} ItemsFromComplete(g: ListGraph, node: string, seen: set<string>, items: seq<string>)
    requires IsList(g, node, items)
    requires forall k :: 0 <= k < |items| ==> NodeAt(g, node, items, k) !in seen
    ensures ItemsFrom(g, node, seen) == Some(items)
    decreases |items|
  {
    if !Ends(g, node) {
      var tail := items[1..];
      assert NodeAt(g, node, items, 0) == node;
      forall k | 0 <= k < |tail| ensures NodeAt(g, g.rest[node], tail, k) !in seen + {node} {
        assert NodeAt(g, node, items, k + 1) == NodeAt(g, g.rest[node], tail, k);
        NoReturn(g, node, items, k + 1);
      }
      ItemsFromComplete(g, g.rest[node], seen + {node}, tail);
      assert items == [items[0]] + tail;
    }
  }

  /** `list_items` yields exactly the finite nil-terminated list, and raises exactly when there is
      none: the head starts a cycle or a node lacks its value. */
  lemma {:induction false} ListItemsExact(g: ListGraph, head: string, items: seq<string>)
    ensures Items(g, head) == Some(items) <==> IsList(g, head, items)
  {
    if Items(g, head) == Some(items) { ItemsFromSound(g, head, {}); }
    if IsList(g, head, items) { ItemsFromComplete(g, head, {}, items); }
  }

  // ----- load_manifest

  /** In traversal order, the `mf:entries` list of each manifest subject and its `mf:include` lists. */
  datatype Part = Entries(head: string) | Include(head: string)

  datatype Manifest = Unparsable | Manifest(lists: ListGraph, parts: seq<Part>)

  /** The regular files of the suite, and where an include item points (`local_path`). */
  datatype Suite = Suite(files: map<string, Manifest>, locate: string -> Option<string>)

  function Located(suite: Suite, item: string): Option<string> {
    var file := suite.locate(item);
    if file.Some? && file.value in suite.files then file else None
  }

  predicate GoodPart(suite: Suite, m: Manifest, part: Part)
    requires m.Manifest?
  {
    var items := Items(m.lists, part.head);
    items.Some? && (part.Include? ==> forall i :: 0 <= i < |items.value| ==> Located(suite, items.value[i]).Some?)
  }

  /** The manifest parses, its lists are well formed, and every include names a suite file. */
  predicate Good(suite: Suite, file: string) {
    && file in suite.files && suite.files[file].Manifest?
    && forall i :: 0 <= i < |suite.files[file].parts| ==> GoodPart(suite, suite.files[file], suite.files[file].parts[i])
  }

  /** How often a manifest lists `test` in its first `n` parts. */
  function Mentions(m: Manifest, n: nat, test: string): nat
    requires m.Manifest? && n <= |m.parts|
  {
    if n == 0 then 0 else
      var part := m.parts[n-1];
      var items := Items(m.lists, part.head);
      Mentions(m, n - 1, test) + if part.Entries? && items.Some? then multiset(items.value)[test] else 0
  }

  function Occurrences(suite: Suite, file: string, test: string): nat {
    if file in suite.files && suite.files[file].Manifest?
    then Mentions(suite.files[file], |suite.files[file].parts|, test) else 0
  }

  /** `a` includes `b`. */
  ghost predicate Edge(suite: Suite, a: string, b: string) {
    && Good(suite, a)
    && exists i, j :: IncludesAt(suite, a, i, j, b)
  }

  ghost predicate IncludesAt(suite: Suite, a: string, i: int, j: int, b: string) {
    && a in suite.files && suite.files[a].Manifest? && 0 <= i < |suite.files[a].parts|
    && suite.files[a].parts[i].Include?
    && var items := Items(suite.files[a].lists, suite.files[a].parts[i].head);
       items.Some? && 0 <= j < |items.value| && Located(suite, items.value[j]) == Some(b)
  }

  ghost predicate IsPath(suite: Suite, p: seq<string>) {
    p != [] && forall i :: 0 <= i < |p| - 1 ==> Edge(suite, p[i], p[i+1])
  }

  ghost predicate Reaches(suite: Suite, a: string, b: string) {
    exists p :: IsPath(suite, p) && p[0] == a && p[|p|-1] == b
  }

  lemma {:induction false} ReachesSelf(suite: Suite, a: string)
    ensures Reaches(suite, a, a)
  {
    assert IsPath(suite, [a]);
  }

  lemma {:induction false} ReachesStep(suite: Suite, a: string, b: string, c: string)
    requires Edge(suite, a, b) && Reaches(suite, b, c)
    ensures Reaches(suite, a, c)
  {
    var p :| IsPath(suite, p) && p[0] == b && p[|p|-1] == c;
    var q := [a] + p;
    forall i | 0 <= i < |q| - 1 ensures Edge(suite, q[i], q[i+1]) {
      if i > 0 { assert q[i] == p[i-1] && q[i+1] == p[i]; }
    }
    assert IsPath(suite, q);
  }

  /** A set closed under includes holds everything reachable from its members. */
  lemma {:induction false} ClosedHoldsReachable(suite: Suite, s: set<string>, p: seq<string>)
    requires forall a, b :: a in s && Edge(suite, a, b) ==> b in s
    requires IsPath(suite, p) && p[0] in s
    ensures p[|p|-1] in s
    decreases |p|
  {
    if |p| > 1 {
      var q := p[1..];
      assert Edge(suite, p[0], p[1]);
      forall i | 0 <= i < |q| - 1 ensures Edge(suite, q[i], q[i+1]) { assert Edge(suite, p[i+1], p[i+2]); }
      ClosedHoldsReachable(suite, s, q);
    }
  }

  /** A test and the manifest file that lists it. */
  type Test = (string, string)

  /** Each file of `added` contributes its own entries once; no other file contributes. */
  ghost predicate Counted(suite: Suite, tests: seq<Test>, added: set<string>) {
    forall t: string, f: string :: multiset(tests)[(t, f)] == if f in added then Occurrences(suite, f, t) else 0
  }

  ghost predicate ReachedFrom(suite: Suite, starts: set<string>, f: string) {
    exists s :: s in starts && Reaches(suite, s, f)
  }

  ghost predicate ClosedIn(suite: Suite, part: set<string>, whole: set<string>) {
    forall a, b :: a in part && Edge(suite, a, b) ==> b in whole
  }

  /** The walk went from `before` to `after`, starting at `starts`. */
  ghost predicate Walked(suite: Suite, before: set<string>, after: set<string>, starts: set<string>) {
    && before <= after && starts <= after
    && (forall f :: f in after && f !in before ==> Good(suite, f))
    && (forall f :: f in after && f !in before ==> ReachedFrom(suite, starts, f))
    && ClosedIn(suite, after - before, after)
  }

  ghost predicate Broken(suite: Suite, starts: set<string>) {
    exists f :: ReachedFrom(suite, starts, f) && !Good(suite, f)
  }

  lemma {:induction false} CountedJoin(suite: Suite, a: seq<Test>, e: set<string>, b: seq<Test>, f: set<string>)
    requires Counted(suite, a, e) && Counted(suite, b, f) && e !! f
    ensures Counted(suite, a + b, e + f)
  {
  }

  lemma {:induction false} ReachedFromMore(suite: Suite, a: set<string>, b: set<string>, f: string)
    requires ReachedFrom(suite, a, f) && a <= b
    ensures ReachedFrom(suite, b, f)
  {
    var s :| s in a && Reaches(suite, s, f);
    assert s in b;
  }

  lemma {:induction false} WalkedJoin(
      suite: Suite, s: set<string>, t: set<string>, u: set<string>, a: set<string>, b: set<string>)
    requires Walked(suite, s, t, a) && Walked(suite, t, u, b)
    ensures Walked(suite, s, u, a + b)
  {
    forall f | f in u && f !in s ensures ReachedFrom(suite, a + b, f) {
      if f in t { ReachedFromMore(suite, a, a + b, f); } else { ReachedFromMore(suite, b, a + b, f); }
    }
  }

  // ----- reading one manifest part by part

  ghost predicate Parses(suite: Suite, path: string) {
    path in suite.files && suite.files[path].Manifest?
  }

  /** The first `n` parts of `path` are well formed and what they include is in `after`. */
  ghost predicate PartsDone(suite: Suite, path: string, n: nat, after: set<string>)
    requires Parses(suite, path) && n <= |suite.files[path].parts|
  {
    && (forall i, j, b :: i < n && IncludesAt(suite, path, i, j, b) ==> b in after)
    && (forall i :: 0 <= i < n ==> GoodPart(suite, suite.files[path], suite.files[path].parts[i]))
  }

  /** Every file added besides `path` is finished and, if `path` is good, reached from it. */
  ghost predicate OthersDone(suite: Suite, before: set<string>, after: set<string>, path: string) {
    && path !in before && path in after && before <= after
    && (forall f :: f in after && f !in before && f != path ==> Good(suite, f))
    && ClosedIn(suite, after - before - {path}, after)
    && (Good(suite, path) ==> forall f :: f in after && f !in before ==> Reaches(suite, path, f))
  }

  /** `path` has contributed its first `n` parts, every other added file all of its own. */
  ghost predicate Tallied(suite: Suite, before: set<string>, after: set<string>, path: string, n: nat, tests: seq<Test>)
    requires Parses(suite, path) && n <= |suite.files[path].parts|
  {
    forall t: string, f: string :: multiset(tests)[(t, f)] ==
      if f == path then Mentions(suite.files[path], n, t)
      else if f in after && f !in before then Occurrences(suite, f, t) else 0
  }

  lemma {:induction false} ReadingDone(suite: Suite, before: set<string>, after: set<string>, path: string)
    requires Parses(suite, path) && PartsDone(suite, path, |suite.files[path].parts|, after)
    requires OthersDone(suite, before, after, path)
    ensures Walked(suite, before, after, {path})
  {
    assert Good(suite, path);
    forall f | f in after && f !in before ensures ReachedFrom(suite, {path}, f) {
      assert path in {path} && Reaches(suite, path, f);
    }
    forall a, b | a in after - before && Edge(suite, a, b) ensures b in after {
      if a == path {
        var i, j :| IncludesAt(suite, a, i, j, b);
      }
    }
  }

  lemma {:induction false} TallyDone(
      suite: Suite, before: set<string>, after: set<string>, path: string, tests: seq<Test>)
    requires Parses(suite, path) && path in after && path !in before
    requires Tallied(suite, before, after, path, |suite.files[path].parts|, tests)
    ensures Counted(suite, tests, after - before)
  {
  }

  /** The entries of one list, tagged with their manifest. */
  function Tagged(items: seq<string>, file: string): seq<Test> {
    if items == [] then [] else Tagged(items[..|items|-1], file) + [(items[|items|-1], file)]
  }

  lemma {:induction false} TaggedBag(items: seq<string>, file: string)
    ensures forall t: string, f: string ::
      multiset(Tagged(items, file))[(t, f)] == if f == file then multiset(items)[t] else 0
    decreases |items|
  {
    if items != [] {
      var init := items[..|items|-1];
      TaggedBag(init, file);
      assert items == init + [items[|items|-1]];
    }
  }

  lemma {:induction false} TallyEntries(
      suite: Suite, before: set<string>, after: set<string>, path: string, n: nat, tests: seq<Test>,
      items: seq<string>)
    requires Parses(suite, path) && n < |suite.files[path].parts| && Tallied(suite, before, after, path, n, tests)
    requires suite.files[path].parts[n].Entries?
    requires Items(suite.files[path].lists, suite.files[path].parts[n].head) == Some(items)
    ensures Tallied(suite, before, after, path, n + 1, tests + Tagged(items, path))
  {
    TaggedBag(items, path);
  }

  lemma {:induction false} TallyInclude(
      suite: Suite, before: set<string>, middle: set<string>, after: set<string>, path: string, n: nat,
      tests: seq<Test>, more: seq<Test>)
    requires Parses(suite, path) && n < |suite.files[path].parts| && Tallied(suite, before, middle, path, n, tests)
    requires suite.files[path].parts[n].Include? && before <= middle <= after && path in middle
    requires Counted(suite, more, after - middle)
    ensures Tallied(suite, before, after, path, n + 1, tests + more)
  {
  }

  /** `files` are exactly what the include items point at. */
  ghost predicate PointsAt(suite: Suite, items: seq<string>, files: set<string>) {
    && (forall i :: 0 <= i < |items| ==> Located(suite, items[i]).Some? && Located(suite, items[i]).value in files)
    && ReachedByItem(suite, items, files)
  }

  ghost predicate ReachedByItem(suite: Suite, items: seq<string>, files: set<string>) {
    forall f :: f in files ==> exists i :: 0 <= i < |items| && Located(suite, items[i]) == Some(f)
  }

  lemma {:induction false} IncludeEdge(
      suite: Suite, path: string, n: nat, items: seq<string>, files: set<string>, s: string)
    requires Parses(suite, path) && n < |suite.files[path].parts| && Good(suite, path)
    requires suite.files[path].parts[n].Include?
    requires Items(suite.files[path].lists, suite.files[path].parts[n].head) == Some(items)
    requires ReachedByItem(suite, items, files) && s in files
    ensures Edge(suite, path, s)
  {
    var i :| 0 <= i < |items| && Located(suite, items[i]) == Some(s);
    assert IncludesAt(suite, path, n, i, s);
  }

  lemma {:induction false} IncludeParts(
      suite: Suite, path: string, n: nat, items: seq<string>, files: set<string>, middle: set<string>,
      after: set<string>)
    requires Parses(suite, path) && n < |suite.files[path].parts| && PartsDone(suite, path, n, middle)
    requires suite.files[path].parts[n].Include?
    requires Items(suite.files[path].lists, suite.files[path].parts[n].head) == Some(items)
    requires PointsAt(suite, items, files) && files <= after && middle <= after
    ensures PartsDone(suite, path, n + 1, after)
  {
    forall i, j, b | i < n + 1 && IncludesAt(suite, path, i, j, b) ensures b in after {
      if i == n { assert Located(suite, items[j]) == Some(b); }
    }
  }

  lemma {:induction false} IncludeOthers(
      suite: Suite, before: set<string>, middle: set<string>, after: set<string>, path: string, n: nat,
      items: seq<string>, files: set<string>)
    requires Parses(suite, path) && n < |suite.files[path].parts| && OthersDone(suite, before, middle, path)
    requires suite.files[path].parts[n].Include?
    requires Items(suite.files[path].lists, suite.files[path].parts[n].head) == Some(items)
    requires ReachedByItem(suite, items, files) && Walked(suite, middle, after, files)
    ensures OthersDone(suite, before, after, path)
  {
    if Good(suite, path) {
      forall f | f in after && f !in before ensures Reaches(suite, path, f) {
        if f !in middle {
          var s :| s in files && Reaches(suite, s, f);
          IncludeEdge(suite, path, n, items, files, s);
          ReachesStep(suite, path, s, f);
        }
      }
    }
  }

  ghost predicate Reading(suite: Suite, before: set<string>, after: set<string>, path: string, n: nat, tests: seq<Test>)
    requires Parses(suite, path) && n <= |suite.files[path].parts|
  {
    && PartsDone(suite, path, n, after) && OthersDone(suite, before, after, path)
    && Tallied(suite, before, after, path, n, tests)
  }

  lemma {:induction false} ReadingStart(suite: Suite, before: set<string>, path: string)
    requires Parses(suite, path) && path !in before
    ensures Reading(suite, before, before + {path}, path, 0, [])
  {
    ReachesSelf(suite, path);
  }

  lemma {:induction false} ReadingEnd(
      suite: Suite, before: set<string>, after: set<string>, path: string, tests: seq<Test>)
    requires Parses(suite, path) && Reading(suite, before, after, path, |suite.files[path].parts|, tests)
    ensures Walked(suite, before, after, {path}) && Counted(suite, tests, after - before)
  {
    ReadingDone(suite, before, after, path);
    TallyDone(suite, before, after, path, tests);
  }

  lemma {:induction false} EntriesRead(
      suite: Suite, before: set<string>, after: set<string>, path: string, n: nat, tests: seq<Test>,
      items: seq<string>)
    requires Parses(suite, path) && n < |suite.files[path].parts| && Reading(suite, before, after, path, n, tests)
    requires suite.files[path].parts[n].Entries?
    requires Items(suite.files[path].lists, suite.files[path].parts[n].head) == Some(items)
    ensures Reading(suite, before, after, path, n + 1, tests + Tagged(items, path))
  {
    TallyEntries(suite, before, after, path, n, tests, items);
  }

  lemma {:induction false} IncludeRead(
    suite: Suite, before: set<string>, middle: set<string>, after: set<string>, path: string, n: nat,
    tests: seq<Test>, more: seq<Test>, items: seq<string>, files: set<string>)
    requires Parses(suite, path) && n < |suite.files[path].parts| && Reading(suite, before, middle, path, n, tests)
    requires suite.files[path].parts[n].Include?
    requires Items(suite.files[path].lists, suite.files[path].parts[n].head) == Some(items)
    requires PointsAt(suite, items, files) && Walked(suite, middle, after, files)
    requires Counted(suite, more, after - middle)
    ensures Reading(suite, before, after, path, n + 1, tests + more)
  {
    IncludeParts(suite, path, n, items, files, middle, after);
    IncludeOthers(suite, before, middle, after, path, n, items, files);
    TallyInclude(suite, before, middle, after, path, n, tests, more);
  }

  lemma {:induction false} SelfBroken(suite: Suite, path: string)
    requires !Good(suite, path)
    ensures Broken(suite, {path})
  {
    ReachesSelf(suite, path);
    assert ReachedFrom(suite, {path}, path);
  }

  lemma {:induction false} PartMalformed(suite: Suite, path: string, n: nat)
    requires Parses(suite, path) && n < |suite.files[path].parts|
    requires Items(suite.files[path].lists, suite.files[path].parts[n].head).None?
    ensures Broken(suite, {path})
  {
    assert !GoodPart(suite, suite.files[path], suite.files[path].parts[n]);
    SelfBroken(suite, path);
  }

  lemma {:induction false} IncludeBroken(suite: Suite, path: string, n: nat, items: seq<string>, files: set<string>)
    requires Parses(suite, path) && n < |suite.files[path].parts|
    requires suite.files[path].parts[n].Include?
    requires Items(suite.files[path].lists, suite.files[path].parts[n].head) == Some(items)
    requires ReachedByItem(suite, items, files)
    requires (exists i :: 0 <= i < |items| && Located(suite, items[i]).None?) || Broken(suite, files)
    ensures Broken(suite, {path})
  {
    ReachesSelf(suite, path);
    assert ReachedFrom(suite, {path}, path);
    if Good(suite, path) {
      assert GoodPart(suite, suite.files[path], suite.files[path].parts[n]);
      var f :| ReachedFrom(suite, files, f) && !Good(suite, f);
      var s :| s in files && Reaches(suite, s, f);
      IncludeEdge(suite, path, n, items, files, s);
      ReachesStep(suite, path, s, f);
      assert path in {path} && ReachedFrom(suite, {path}, f);
    }
  }

  lemma {:induction false} SmallerSet(a: set<string>, b: set<string>)
    requires a <= b
    ensures |a| <= |b| && (a != b ==> |a| < |b|)
  {
    assert b == a + (b - a);
    if a != b { assert b - a != {}; }
  }

  class Loader {
    const suite: Suite
    var seen: set<string>

    constructor (suite: Suite)
      ensures this.suite == suite && seen == {}
    {
      this.suite := suite;
      seen := {};
    }

    /** `load_manifest(path, suite_root, seen)` */
    method Load(path: string) returns (tests: Option<seq<Test>>)
      requires seen <= suite.files.Keys
      modifies this
      ensures old(seen) <= seen <= suite.files.Keys
      ensures tests.Some? ==> Walked(suite, old(seen), seen, {path}) && Counted(suite, tests.value, seen - old(seen))
      ensures tests.None? ==> Broken(suite, {path})
      decreases |suite.files.Keys - seen|, 0
    {
      if path in seen { return Some([]); }
      if path !in suite.files {
        SelfBroken(suite, path);
        return None;
      }
      seen := seen + {path};
      SmallerSet(suite.files.Keys - seen, suite.files.Keys - old(seen));
      if suite.files[path].Unparsable? {
        SelfBroken(suite, path);
        return None;
      }
      tests := LoadParts(path, old(seen));
      if tests.Some? {
        ReadingEnd(suite, old(seen), seen, path, tests.value);
      }
    }

    /** The loops over the manifest subjects of one parsed file. */
    method LoadParts(path: string, ghost before: set<string>) returns (tests: Option<seq<Test>>)
      requires seen == before + {path} && seen <= suite.files.Keys && path !in before
      requires Parses(suite, path)
      modifies this
      ensures old(seen) <= seen <= suite.files.Keys
      ensures tests.Some? ==> Reading(suite, before, seen, path, |suite.files[path].parts|, tests.value)
      ensures tests.None? ==> Broken(suite, {path})
      decreases |suite.files.Keys - seen|, 3
    {
      tests := Some([]);
      ReadingStart(suite, before, path);
      var n := 0;
      while n < |suite.files[path].parts| && tests.Some?
        invariant n <= |suite.files[path].parts|
        invariant old(seen) <= seen <= suite.files.Keys
        invariant tests.Some? ==> Reading(suite, before, seen, path, n, tests.value)
        invariant tests.None? ==> Broken(suite, {path})
      {
        SmallerSet(suite.files.Keys - seen, suite.files.Keys - old(seen));
        tests := LoadPart(path, n, before, tests.value);
        n := n + 1;
      }
    }

    /** One entries or include list of a manifest being read. */
    method LoadPart(path: string, n: nat, ghost before: set<string>, tests: seq<Test>) returns (more: Option<seq<Test>>)
      requires seen <= suite.files.Keys && Parses(suite, path) && n < |suite.files[path].parts|
      requires Reading(suite, before, seen, path, n, tests)
      modifies this
      ensures old(seen) <= seen <= suite.files.Keys
      ensures more.Some? ==> Reading(suite, before, seen, path, n + 1, more.value)
      ensures more.None? ==> Broken(suite, {path})
      decreases |suite.files.Keys - seen|, 2
    {
      var part := suite.files[path].parts[n];
      var items := ListItems(suite.files[path].lists, part.head);
      if items.None? {
        PartMalformed(suite, path, n);
        return None;
      }
      if part.Entries? {
        EntriesRead(suite, before, seen, path, n, tests, items.value);
        return Some(tests + Tagged(items.value, path));
      }
      ghost var files: set<string>;
      files, more := LoadItems(items.value);
      if more.None? {
        IncludeBroken(suite, path, n, items.value, files);
      } else {
        IncludeRead(suite, before, old(seen), seen, path, n, tests, more.value, items.value, files);
        more := Some(tests + more.value);
      }
    }

    /** The loop over one include list. */
    method LoadItems(items: seq<string>) returns (ghost files: set<string>, tests: Option<seq<Test>>)
      requires seen <= suite.files.Keys
      modifies this
      ensures old(seen) <= seen <= suite.files.Keys
      ensures ReachedByItem(suite, items, files)
      ensures tests.Some? ==>
        && PointsAt(suite, items, files) && Walked(suite, old(seen), seen, files)
        && Counted(suite, tests.value, seen - old(seen))
      ensures tests.None? ==>
        (exists i :: 0 <= i < |items| && Located(suite, items[i]).None?) || Broken(suite, files)
      decreases |suite.files.Keys - seen|, 1
    {
      files := {};
      var found: seq<Test> := [];
      for n := 0 to |items|
        invariant old(seen) <= seen <= suite.files.Keys
        invariant PointsAt(suite, items[..n], files)
        invariant Walked(suite, old(seen), seen, files)
        invariant Counted(suite, found, seen - old(seen))
      {
        var file := Located(suite, items[n]);
        PointsSnoc(suite, items, n, files);
        if file.None? { return files, None; }
        ghost var middle, before := seen, files;
        SmallerSet(suite.files.Keys - seen, suite.files.Keys - old(seen));
        var more := Load(file.value);
        files := files + {file.value};
        if more.None? {
          BrokenMore(suite, {file.value}, files);
          return files, None;
        }
        WalkedJoin(suite, old(seen), middle, seen, before, {file.value});
        CountedJoin(suite, found, middle - old(seen), more.value, seen - middle);
        assert seen - old(seen) == (middle - old(seen)) + (seen - middle);
        found := found + more.value;
      }
      assert items[..|items|] == items;
      return files, Some(found);
    }

    /** The loop over the required manifests, all with one `seen` set. */
    method LoadRoots(roots: seq<string>) returns (tests: Option<seq<Test>>)
      requires seen == {}
      modifies this
      ensures tests.Some? ==> Inventory(suite, roots, seen, tests.value)
      ensures tests.None? ==> Broken(suite, Members(roots))
    {
      ghost var starts: set<string> := {};
      var found: seq<Test> := [];
      for n := 0 to |roots|
        invariant seen <= suite.files.Keys
        invariant starts == Members(roots[..n])
        invariant Walked(suite, {}, seen, starts) && Counted(suite, found, seen)
      {
        ghost var middle := seen;
        assert roots[..n+1] == roots[..n] + [roots[n]];
        var more := Load(roots[n]);
        if more.None? {
          BrokenMore(suite, {roots[n]}, Members(roots));
          return None;
        }
        InventoryGrows(suite, middle, seen, starts, roots[n], found, more.value);
        starts := starts + {roots[n]};
        found := found + more.value;
      }
      assert roots[..|roots|] == roots;
      assert seen - {} == seen;
      return Some(found);
    }
  }

  lemma {:induction false} InventoryGrows(
      suite: Suite, middle: set<string>, after: set<string>, starts: set<string>, root: string, tests: seq<Test>,
      more: seq<Test>)
    requires Walked(suite, {}, middle, starts) && Counted(suite, tests, middle)
    requires Walked(suite, middle, after, {root}) && Counted(suite, more, after - middle)
    ensures Walked(suite, {}, after, starts + {root}) && Counted(suite, tests + more, after)
  {
    WalkedJoin(suite, {}, middle, after, starts, {root});
    CountedJoin(suite, tests, middle, more, after - middle);
    assert after == middle + (after - middle);
  }

  lemma {:induction false} BrokenMore(suite: Suite, a: set<string>, b: set<string>)
    requires Broken(suite, a) && a <= b
    ensures Broken(suite, b)
  {
    var f :| ReachedFrom(suite, a, f) && !Good(suite, f);
    ReachedFromMore(suite, a, b, f);
  }

  lemma {:induction false} PointsSnoc(suite: Suite, items: seq<string>, n: nat, files: set<string>)
    requires n < |items| && PointsAt(suite, items[..n], files)
    ensures ReachedByItem(suite, items, files)
    ensures Located(suite, items[n]).Some? ==>
      PointsAt(suite, items[..n+1], files + {Located(suite, items[n]).value})
      && ReachedByItem(suite, items, files + {Located(suite, items[n]).value})
  {
    var p, q := items[..n], items[..n+1];
    forall f | f in files
      ensures exists i :: 0 <= i < |items| && Located(suite, items[i]) == Some(f)
      ensures exists i :: 0 <= i < |q| && Located(suite, q[i]) == Some(f)
    {
      var i :| 0 <= i < |p| && Located(suite, p[i]) == Some(f);
      assert items[i] == p[i] == q[i];
    }
    forall i | 0 <= i < n
      ensures Located(suite, q[i]).Some? && Located(suite, q[i]).value in files
    {
      assert q[i] == p[i];
    }
    assert q[n] == items[n];
  }

  // ----- main results

  /** What the loaded inventory is, in terms of the include graph alone. */
  ghost predicate Inventory(suite: Suite, roots: seq<string>, seen: set<string>, tests: seq<Test>) {
    Walked(suite, {}, seen, Members(roots)) && Counted(suite, tests, seen)
  }

  /** On success `seen` is exactly what the roots reach by includes, cycles or not, every
      reachable manifest is well formed, and each contributes its entries exactly once. */
  lemma {:induction false} InventoryIsReachable(
      suite: Suite, roots: seq<string>, seen: set<string>, tests: seq<Test>, f: string)
    requires Inventory(suite, roots, seen, tests)
    ensures f in seen <==> ReachedFrom(suite, Members(roots), f)
    ensures f in seen ==> Good(suite, f)
    ensures forall t: string :: multiset(tests)[(t, f)] == if f in seen then Occurrences(suite, f, t) else 0
  {
    var starts := Members(roots);
    if ReachedFrom(suite, starts, f) {
      var s :| s in starts && Reaches(suite, s, f);
      var p :| IsPath(suite, p) && p[0] == s && p[|p|-1] == f;
      assert seen - {} == seen;
      ClosedHoldsReachable(suite, seen, p);
    }
  }

  /** Success and failure are decided by the graph: loading never succeeds where a reachable manifest is broken. */
  lemma {:induction false} LoadedImpliesUnbroken(suite: Suite, roots: seq<string>, seen: set<string>, tests: seq<Test>)
    requires Inventory(suite, roots, seen, tests)
    ensures !Broken(suite, Members(roots))
  {
    forall f | ReachedFrom(suite, Members(roots), f) ensures Good(suite, f) {
      InventoryIsReachable(suite, roots, seen, tests, f);
    }
  }

  /** The order of the roots changes neither the manifests visited nor the bag of tests. */
  lemma {:induction false} RootOrderIrrelevant(
      suite: Suite, a: seq<string>, b: seq<string>, s: set<string>, t: set<string>, x: seq<Test>, y: seq<Test>)
    requires forall r :: r in a <==> r in b
    requires Inventory(suite, a, s, x) && Inventory(suite, b, t, y)
    ensures s == t && multiset(x) == multiset(y)
  {
    assert Members(a) == Members(b);
    forall f ensures f in s <==> f in t {
      InventoryIsReachable(suite, a, s, x, f);
      InventoryIsReachable(suite, b, t, y, f);
    }
    forall e: Test ensures multiset(x)[e] == multiset(y)[e] {
      assert e == (e.0, e.1);
    }
  }
}
