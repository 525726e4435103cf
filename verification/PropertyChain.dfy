/** The independent property-chain evaluator of the release corpus: expansion hop by hop, and
    the context graph it emits. */
module PropertyChain {
  import opened Options
  import opened Sorting
  import opened Sequences
  import opened Loops

  datatype Triple = Triple(subject: string, predicate_: string, object_: string)

  /** A partial chain: where it starts, where it stands, and the triples walked so far. */
  datatype Path = Path(start: string, current: string, context: seq<Triple>)

  type Pair = (string, string)
  type Relations = map<string, set<Pair>>

  ghost predicate Covers(rel: Relations, chain: seq<string>) {
    forall i :: 0 <= i < |chain| ==> chain[i] in rel
  }

  // ----- what the expansion means

  /** `p` is a walk through the first `k` relations of the chain. */
  ghost predicate Walk(rel: Relations, chain: seq<string>, k: nat, p: Path)
    requires Covers(rel, chain) && 1 <= k <= |chain|
  {
    && |p.context| == k
    && (forall i :: 0 <= i < k ==> p.context[i].predicate_ == chain[i])
    && (forall i :: 0 <= i < k ==> (p.context[i].subject, p.context[i].object_) in rel[chain[i]])
    && (forall i :: 1 <= i < k ==> p.context[i-1].object_ == p.context[i].subject)
    && p.start == p.context[0].subject && p.current == p.context[k-1].object_
  }

  /** Composition of the first `k` relations, as section 2.3.2 of the OWL 2 Direct Semantics
      interprets a property chain. */
  ghost predicate Composed(rel: Relations, chain: seq<string>, k: nat, x: string, y: string)
    requires Covers(rel, chain) && 1 <= k <= |chain|
  {
    if k == 1 then (x, y) in rel[chain[0]]
    else exists z :: Composed(rel, chain, k - 1, x, z) && (z, y) in rel[chain[k-1]]
  }

  function Extended(p: Path, predicate_: string, pair: Pair): Path {
    Path(p.start, pair.1, p.context + [Triple(pair.0, predicate_, pair.1)])
  }

  function Started(predicate_: string, pair: Pair): Path {
    Path(pair.0, pair.1, [Triple(pair.0, predicate_, pair.1)])
  }

  /** The walk with its last hop taken off. */
  ghost function Shortened(p: Path): Path
    requires |p.context| >= 2
  {
    var n := |p.context|;
    Path(p.start, p.context[n-2].object_, p.context[..n-1])
  }

  lemma {:induction false} ExtendWalk(rel: Relations, chain: seq<string>, k: nat, p: Path, pair: Pair)
    requires Covers(rel, chain) && 1 <= k < |chain| && Walk(rel, chain, k, p)
    requires pair in rel[chain[k]] && pair.0 == p.current
    ensures Walk(rel, chain, k + 1, Extended(p, chain[k], pair))
  {
    var q := Extended(p, chain[k], pair);
    assert forall i :: 0 <= i < k ==> q.context[i] == p.context[i];
    assert q.context[k] == Triple(pair.0, chain[k], pair.1);
  }

  lemma {:induction false} ShortenWalk(rel: Relations, chain: seq<string>, k: nat, q: Path)
    requires Covers(rel, chain) && 1 <= k < |chain| && Walk(rel, chain, k + 1, q)
    ensures Walk(rel, chain, k, Shortened(q))
    ensures var pair := (q.context[k].subject, q.context[k].object_);
      pair in rel[chain[k]] && pair.0 == Shortened(q).current && q == Extended(Shortened(q), chain[k], pair)
  {
    var p := Shortened(q);
    assert q.context == p.context + [q.context[k]];
    assert q.context[k-1].object_ == q.context[k].subject;
  }

  // ----- the expansion loops

  /** The innermost loop: one path against every pair of the next relation. */
  method ExtendPath(p: Path, predicate_: string, pairs: set<Pair>) returns (found: seq<Path>)
    ensures Distinct(found)
    ensures forall q :: q in found <==>
      exists pair :: pair in pairs && pair.0 == p.current && q == Extended(p, predicate_, pair)
  {
    found := [];
    var rest := pairs;
    while rest != {}
      invariant rest <= pairs
      invariant Distinct(found)
      invariant forall q :: q in found <==>
        exists pair :: pair in pairs - rest && pair.0 == p.current && q == Extended(p, predicate_, pair)
      decreases rest
    {
      var pair :| pair in rest;
      rest := rest - {pair};
      if pair.0 == p.current {
        ghost var q := Extended(p, predicate_, pair);
        forall other: Pair | other in pairs && other != pair && other.0 == p.current
          ensures Extended(p, predicate_, other) != q
        {
          assert Extended(p, predicate_, other).current == other.1;
        }
        assert q !in found;
        found := found + [Extended(p, predicate_, pair)];
      }
      assert forall other: Pair :: other in pairs - rest <==> other in pairs - (rest + {pair}) || other == pair;
    }
  }

  ghost predicate AllWalks(rel: Relations, chain: seq<string>, k: nat, paths: seq<Path>)
    requires Covers(rel, chain) && 1 <= k <= |chain|
  {
    Distinct(paths) && forall p :: p in paths <==> Walk(rel, chain, k, p)
  }

  /** The initial paths: one per pair of the first relation. */
  method StartPaths(rel: Relations, chain: seq<string>) returns (paths: seq<Path>)
    requires Covers(rel, chain) && |chain| >= 1
    ensures AllWalks(rel, chain, 1, paths)
  {
    paths := [];
    var rest := rel[chain[0]];
    while rest != {}
      invariant rest <= rel[chain[0]]
      invariant Distinct(paths)
      invariant forall p :: p in paths <==> exists pair :: pair in rel[chain[0]] - rest && p == Started(chain[0], pair)
      decreases rest
    {
      var pair :| pair in rest;
      rest := rest - {pair};
      forall other: Pair | other != pair ensures Started(chain[0], other) != Started(chain[0], pair) {
        assert Started(chain[0], other).start == other.0 && Started(chain[0], other).current == other.1;
        assert other == (other.0, other.1) && pair == (pair.0, pair.1);
      }
      assert Started(chain[0], pair) !in paths;
      paths := paths + [Started(chain[0], pair)];
      assert forall other: Pair :: other in rel[chain[0]] - rest <==>
        other in rel[chain[0]] - (rest + {pair}) || other == pair;
    }
    forall p ensures p in paths <==> Walk(rel, chain, 1, p) {
      if Walk(rel, chain, 1, p) {
        var pair := (p.context[0].subject, p.context[0].object_);
        assert p == Started(chain[0], pair);
      }
    }
  }

  /** The middle loop: replace the walks of length `k` by those of length `k + 1`. */
  method Expand(rel: Relations, chain: seq<string>, k: nat, paths: seq<Path>) returns (expanded: seq<Path>)
    requires Covers(rel, chain) && 1 <= k < |chain| && AllWalks(rel, chain, k, paths)
    ensures AllWalks(rel, chain, k + 1, expanded)
  {
    expanded := [];
    for i := 0 to |paths|
      invariant Distinct(expanded)
      invariant forall q :: q in expanded <==> ExtendsOneOf(rel[chain[k]], chain[k], paths[..i], q)
    {
      var more := ExtendPath(paths[i], chain[k], rel[chain[k]]);
      assert paths[..i+1] == paths[..i] + [paths[i]];
      SeparateExtensions(rel[chain[k]], chain[k], paths, i, expanded, more);
      expanded := expanded + more;
    }
    assert paths[..|paths|] == paths;
    forall q ensures q in expanded <==> Walk(rel, chain, k + 1, q) {
      ExtensionsAreWalks(rel, chain, k, paths, q);
    }
  }

  ghost predicate ExtendsOneOf(pairs: set<Pair>, predicate_: string, paths: seq<Path>, q: Path) {
    exists p, pair :: p in paths && pair in pairs && pair.0 == p.current && q == Extended(p, predicate_, pair)
  }

  lemma {:induction false} SeparateExtensions(
      pairs: set<Pair>, predicate_: string, paths: seq<Path>, i: nat, before: seq<Path>, more: seq<Path>)
    requires i < |paths| && Distinct(paths) && Distinct(before) && Distinct(more)
    requires forall q :: q in before <==> ExtendsOneOf(pairs, predicate_, paths[..i], q)
    requires forall q :: q in more <==>
      exists pair :: pair in pairs && pair.0 == paths[i].current && q == Extended(paths[i], predicate_, pair)
    ensures Distinct(before + more)
    ensures forall q :: q in before + more <==> ExtendsOneOf(pairs, predicate_, paths[..i+1], q)
  {
    assert paths[..i+1] == paths[..i] + [paths[i]];
    forall q | q in before ensures q !in more {
      var p, pair :| p in paths[..i] && pair in pairs && pair.0 == p.current && q == Extended(p, predicate_, pair);
      assert p != paths[i];
      if q in more {
        var other :| other in pairs && other.0 == paths[i].current && q == Extended(paths[i], predicate_, other);
        ExtendedInjective(p, pair, paths[i], other, predicate_);
      }
    }
    DistinctConcat(before, more);
    forall q ensures q in before + more <==> ExtendsOneOf(pairs, predicate_, paths[..i+1], q) {
      if q in before {
        var p, pair :| p in paths[..i] && pair in pairs && pair.0 == p.current && q == Extended(p, predicate_, pair);
        assert p in paths[..i+1];
      }
      if q in more {
        assert paths[i] in paths[..i+1];
      }
    }
  }

  lemma {:induction false} ExtendedInjective(p: Path, a: Pair, q: Path, b: Pair, predicate_: string)
    requires a.0 == p.current && b.0 == q.current && Extended(p, predicate_, a) == Extended(q, predicate_, b)
    ensures p == q && a == b
  {
    var s, t := Extended(p, predicate_, a).context, Extended(q, predicate_, b).context;
    assert |p.context| == |s| - 1 == |q.context|;
    assert s[..|s|-1] == p.context && t[..|t|-1] == q.context;
    assert s[|s|-1] == t[|t|-1];
  }

  lemma {:induction false} ExtensionsAreWalks(rel: Relations, chain: seq<string>, k: nat, paths: seq<Path>, q: Path)
    requires Covers(rel, chain) && 1 <= k < |chain| && AllWalks(rel, chain, k, paths)
    ensures ExtendsOneOf(rel[chain[k]], chain[k], paths, q) <==> Walk(rel, chain, k + 1, q)
  {
    if ExtendsOneOf(rel[chain[k]], chain[k], paths, q) {
      var p, pair :| p in paths && pair in rel[chain[k]] && pair.0 == p.current && q == Extended(p, chain[k], pair);
      ExtendWalk(rel, chain, k, p, pair);
    }
    if Walk(rel, chain, k + 1, q) {
      ShortenWalk(rel, chain, k, q);
      assert Shortened(q) in paths;
    }
  }

  method ExpandChain(rel: Relations, chain: seq<string>) returns (paths: seq<Path>)
    requires Covers(rel, chain) && |chain| >= 1
    ensures AllWalks(rel, chain, |chain|, paths)
  {
    paths := StartPaths(rel, chain);
    for k := 1 to |chain|
      invariant AllWalks(rel, chain, k, paths)
    {
      paths := Expand(rel, chain, k, paths);
    }
  }

  // ----- main results

  lemma {:induction false} WalkIsComposed(rel: Relations, chain: seq<string>, k: nat, p: Path)
    requires Covers(rel, chain) && 1 <= k <= |chain| && Walk(rel, chain, k, p)
    ensures Composed(rel, chain, k, p.start, p.current)
    decreases k
  {
    if k > 1 {
      ShortenWalk(rel, chain, k - 1, p);
      WalkIsComposed(rel, chain, k - 1, Shortened(p));
      assert (Shortened(p).current, p.current) in rel[chain[k-1]];
    }
  }

  lemma {:induction false} ComposedHasWalk(rel: Relations, chain: seq<string>, k: nat, x: string, y: string)
    returns (p: Path)
    requires Covers(rel, chain) && 1 <= k <= |chain| && Composed(rel, chain, k, x, y)
    ensures Walk(rel, chain, k, p) && p.start == x && p.current == y
    decreases k
  {
    if k == 1 {
      p := Started(chain[0], (x, y));
    } else {
      var z :| Composed(rel, chain, k - 1, x, z) && (z, y) in rel[chain[k-1]];
      var q := ComposedHasWalk(rel, chain, k - 1, x, z);
      ExtendWalk(rel, chain, k - 1, q, (z, y));
      p := Extended(q, chain[k-1], (z, y));
    }
  }

  /** The emitted set: every context triple of every path, and the target triple it entails. */
  ghost predicate Emitted(paths: seq<Path>, target: string, t: Triple) {
    exists p :: p in paths && (t in p.context || t == Triple(p.start, target, p.current))
  }

  ghost predicate OnSomeWalk(rel: Relations, chain: seq<string>, t: Triple)
    requires Covers(rel, chain) && |chain| >= 1
  {
    exists p :: Walk(rel, chain, |chain|, p) && t in p.context
  }

  /** Soundness and completeness of the context graph: a triple is emitted exactly when it lies on
      some complete walk of the chain or is the target property of a composed pair. */
  lemma {:induction false} EmittedExactly(
      rel: Relations, chain: seq<string>, paths: seq<Path>, target: string, t: Triple)
    requires Covers(rel, chain) && |chain| >= 1 && AllWalks(rel, chain, |chain|, paths)
    ensures Emitted(paths, target, t) <==>
      OnSomeWalk(rel, chain, t) || (t.predicate_ == target && Composed(rel, chain, |chain|, t.subject, t.object_))
  {
    if Emitted(paths, target, t) {
      var p :| p in paths && (t in p.context || t == Triple(p.start, target, p.current));
      WalkIsComposed(rel, chain, |chain|, p);
    }
    if t.predicate_ == target && Composed(rel, chain, |chain|, t.subject, t.object_) {
      var p := ComposedHasWalk(rel, chain, |chain|, t.subject, t.object_);
      assert p in paths;
      assert t == Triple(p.start, target, p.current);
    }
    if OnSomeWalk(rel, chain, t) {
      var p :| Walk(rel, chain, |chain|, p) && t in p.context;
      assert p in paths;
    }
  }

  method Collect(paths: seq<Path>, target: string) returns (found: set<Triple>)
    ensures forall t :: t in found <==> Emitted(paths, target, t)
  {
    found := {};
    for i := 0 to |paths|
      invariant forall t :: t in found <==> Emitted(paths[..i], target, t)
    {
      EmittedSnoc(paths, i, target);
      found := found + (set t | t in paths[i].context) + {Triple(paths[i].start, target, paths[i].current)};
    }
    assert paths[..|paths|] == paths;
  }

  // ----- filling the relations from the named graphs

  /** One named graph block: its IRI, the domain segment of the IRI, and the statements found in it. */
  datatype Block = Block(graph: string, domain: string, statements: seq<Triple>)

  function PairOf(t: Triple): Pair { (t.subject, t.object_) }

  function PredicateIs(predicate_: string): Triple -> bool {
    (t: Triple) => t.predicate_ == predicate_
  }

  function Matches(predicate_: string): Block -> seq<Triple> {
    (b: Block) => Filter(PredicateIs(predicate_), b.statements)
  }

  /** All pairs some block states for a predicate. */
  function Stated(blocks: seq<Block>, predicate_: string): set<Pair> {
    Members(Map(PairOf, Flat(Matches(predicate_), blocks)))
  }

  function RelationsOf(blocks: seq<Block>, chain: seq<string>): Relations {
    map p | p in chain :: Stated(blocks, p)
  }

  /** What a block adds to each relation. */
  function Added(b: Block): string -> set<Pair> {
    (p: string) => Members(Map(PairOf, Matches(p)(b)))
  }

  /** Some predicate of the chain receives something. */
  predicate Contributes(chain: seq<string>, more: string -> set<Pair>) {
    exists p :: p in chain && more(p) != {}
  }

  function ContributionTest(chain: seq<string>): Block -> bool {
    (b: Block) => Contributes(chain, Added(b))
  }

  function GraphOf(b: Block): string { b.graph }
  function DomainOf(b: Block): string { b.domain }

  function Contributing(blocks: seq<Block>, chain: seq<string>): set<string> {
    Members(Map(GraphOf, Filter(ContributionTest(chain), blocks)))
  }

  lemma {:induction false} StatedStep(blocks: seq<Block>, i: nat, predicate_: string)
    requires i < |blocks|
    ensures Stated(blocks[..i+1], predicate_)
      == Stated(blocks[..i], predicate_) + Members(Map(PairOf, Matches(predicate_)(blocks[i])))
  {
    FlatStep(Matches(predicate_), blocks, i);
    var a, b := Flat(Matches(predicate_), blocks[..i]), Matches(predicate_)(blocks[i]);
    assert Map(PairOf, a + b) == Map(PairOf, a) + Map(PairOf, b);
    MembersConcat(Map(PairOf, a), Map(PairOf, b));
  }

  lemma {:induction false} MembersConcat<T>(a: seq<T>, b: seq<T>)
    ensures Members(a + b) == Members(a) + Members(b)
  {
  }

  lemma {:induction false} ContributingStep(blocks: seq<Block>, i: nat, chain: seq<string>)
    requires i < |blocks|
    ensures Contributing(blocks[..i+1], chain)
      == Contributing(blocks[..i], chain) + if Contributes(chain, Added(blocks[i])) then {blocks[i].graph} else {}
  {
    var kept := Filter(ContributionTest(chain), blocks[..i]);
    assert blocks[..i+1] == blocks[..i] + [blocks[i]];
    FilterSnoc(ContributionTest(chain), blocks[..i], blocks[i]);
    MapSnoc(GraphOf, kept, blocks[i]);
    MembersSnoc(Map(GraphOf, kept), blocks[i].graph);
  }

  /** The relations after the predicates in `done` have received their share. */
  function Grown(rel: Relations, done: seq<string>, more: string -> set<Pair>): Relations {
    map p | p in rel :: if p in done then rel[p] + more(p) else rel[p]
  }

  lemma {:induction false} GrownStep(rel: Relations, chain: seq<string>, i: nat, more: string -> set<Pair>)
    requires i < |chain| && chain[i] in rel
    ensures var now := Grown(rel, chain[..i], more);
      Grown(rel, chain[..i+1], more) == now[chain[i] := now[chain[i]] + more(chain[i])]
  {
    var now, next := Grown(rel, chain[..i], more), Grown(rel, chain[..i+1], more);
    assert chain[..i+1] == chain[..i] + [chain[i]];
    var want := now[chain[i] := now[chain[i]] + more(chain[i])];
    assert next.Keys == want.Keys;
    forall p | p in next ensures next[p] == want[p] {
    }
  }

  lemma {:induction false} ContributesStep(chain: seq<string>, i: nat, more: string -> set<Pair>)
    requires i < |chain|
    ensures Contributes(chain[..i+1], more) <==> Contributes(chain[..i], more) || more(chain[i]) != {}
  {
    assert chain[..i+1] == chain[..i] + [chain[i]];
    assert chain[i] in chain[..i+1];
    if Contributes(chain[..i], more) {
      var p :| p in chain[..i] && more(p) != {};
      assert p in chain[..i+1];
    }
  }

  /** The loop over the chain for one block: add its matches, and note whether there were any. */
  method AddBlock(rel: Relations, chain: seq<string>, more: string -> set<Pair>)
    returns (now: Relations, contributes: bool)
    requires Covers(rel, chain)
    ensures now == Grown(rel, chain, more)
    ensures contributes <==> Contributes(chain, more)
  {
    now, contributes := rel, false;
    assert now == Grown(rel, chain[..0], more);
    for i := 0 to |chain|
      invariant now == Grown(rel, chain[..i], more)
      invariant contributes <==> Contributes(chain[..i], more)
    {
      GrownStep(rel, chain, i, more);
      ContributesStep(chain, i, more);
      now := now[chain[i] := now[chain[i]] + more(chain[i])];
      if more(chain[i]) != {} { contributes := true; }
    }
    assert chain[..|chain|] == chain;
  }

  lemma {:induction false} RelationsStep(blocks: seq<Block>, i: nat, chain: seq<string>)
    requires i < |blocks|
    ensures Grown(RelationsOf(blocks[..i], chain), chain, Added(blocks[i])) == RelationsOf(blocks[..i+1], chain)
  {
    var a, b := Grown(RelationsOf(blocks[..i], chain), chain, Added(blocks[i])), RelationsOf(blocks[..i+1], chain);
    assert a.Keys == b.Keys;
    forall p | p in a ensures a[p] == b[p] {
      StatedStep(blocks, i, p);
    }
  }

  lemma {:induction false} NothingStated(chain: seq<string>)
    ensures RelationsOf([], chain) == map p | p in chain :: {}
    ensures Contributing([], chain) == {}
  {
    forall p ensures Stated([], p) == {} {
      assert Flat(Matches(p), []) == [];
    }
  }

  /** The loops over the blocks, the chain and the matches. */
  method FillRelations(blocks: seq<Block>, chain: seq<string>) returns (rel: Relations, contributing: set<string>)
    ensures rel == RelationsOf(blocks, chain) && contributing == Contributing(blocks, chain)
    ensures forall p, x, y :: p in chain ==> ((x, y) in rel[p] <==> States(blocks, Triple(x, p, y)))
    ensures forall graph :: graph in contributing <==> StatesSome(blocks, chain, graph)
  {
    rel, contributing := map p | p in chain :: {}, {};
    NothingStated(chain);
    assert blocks[..0] == [];
    for i := 0 to |blocks|
      invariant rel == RelationsOf(blocks[..i], chain)
      invariant contributing == Contributing(blocks[..i], chain)
    {
      var contributes;
      rel, contributes := AddBlock(rel, chain, Added(blocks[i]));
      RelationsStep(blocks, i, chain);
      ContributingStep(blocks, i, chain);
      if contributes { contributing := contributing + {blocks[i].graph}; }
    }
    assert blocks[..|blocks|] == blocks;
    FilledAsStated(blocks, chain);
  }

  lemma {:induction false} FilledAsStated(blocks: seq<Block>, chain: seq<string>)
    ensures forall p, x, y :: p in chain ==>
      ((x, y) in RelationsOf(blocks, chain)[p] <==> States(blocks, Triple(x, p, y)))
    ensures forall graph :: graph in Contributing(blocks, chain) <==> StatesSome(blocks, chain, graph)
  {
    forall p, x, y | p in chain
      ensures (x, y) in RelationsOf(blocks, chain)[p] <==> States(blocks, Triple(x, p, y))
    {
      RelationHolds(blocks, chain, p, x, y);
    }
    forall graph ensures graph in Contributing(blocks, chain) <==> StatesSome(blocks, chain, graph) {
      ContributingHolds(blocks, chain, graph);
    }
  }

  // ----- the evaluator

  ghost predicate Entails(rel: Relations, chain: seq<string>) {
    Covers(rel, chain) && |chain| >= 1 && exists x, y :: Composed(rel, chain, |chain|, x, y)
  }

  /** Exactly the triples on complete walks and the target triples of composed pairs. */
  ghost predicate ExactGraph(rel: Relations, chain: seq<string>, target: string, graph: set<Triple>)
    requires Covers(rel, chain) && |chain| >= 1
  {
    forall t :: t in graph <==>
      OnSomeWalk(rel, chain, t) || (t.predicate_ == target && Composed(rel, chain, |chain|, t.subject, t.object_))
  }

  /** Expansion and emission over given relations; none if the chain entails nothing. */
  method EvaluateChain(rel: Relations, chain: seq<string>, target: string) returns (graph: Option<set<Triple>>)
    requires Covers(rel, chain) && |chain| >= 1
    ensures graph.Some? <==> Entails(rel, chain)
    ensures graph.Some? ==> ExactGraph(rel, chain, target, graph.value)
  {
    var paths := ExpandChain(rel, chain);
    PathsDecideEntailment(rel, chain, paths);
    if paths == [] { return None; }
    var found := Collect(paths, target);
    GraphExact(rel, chain, paths, target, found);
    return Some(found);
  }

  // ----- in terms of the statements of the blocks

  ghost predicate StatedIn(blocks: seq<Block>, i: int, j: int, t: Triple) {
    0 <= i < |blocks| && 0 <= j < |blocks[i].statements| && blocks[i].statements[j] == t
  }

  ghost predicate States(blocks: seq<Block>, t: Triple) {
    exists i, j :: StatedIn(blocks, i, j, t)
  }

  /** The graph has a statement about some property of the chain. */
  ghost predicate StatesSome(blocks: seq<Block>, chain: seq<string>, graph: string) {
    exists i, j, t :: StatedIn(blocks, i, j, t) && blocks[i].graph == graph && t.predicate_ in chain
  }

  /** Statements about the properties of the chain, one after the other, each starting where the last ended. */
  ghost predicate StatedWalk(blocks: seq<Block>, chain: seq<string>, steps: seq<Triple>) {
    && |steps| == |chain|
    && (forall i :: 0 <= i < |chain| ==> steps[i].predicate_ == chain[i] && States(blocks, steps[i]))
    && forall i :: 1 <= i < |chain| ==> steps[i-1].object_ == steps[i].subject
  }

  /** `t` is a statement of the walk, or the consequence that joins its ends. */
  ghost predicate OnWalk(target: string, steps: seq<Triple>, t: Triple) {
    t in steps || (steps != [] && t == Triple(steps[0].subject, target, steps[|steps|-1].object_))
  }

  /** Three blocks over three domains, a chain of at least two hops with a complete walk, and three
      graphs that state something about it. */
  ghost predicate Evaluable(blocks: seq<Block>, chain: seq<string>) {
    && |blocks| >= 3 && |set i | 0 <= i < |blocks| :: blocks[i].domain| >= 3 && |chain| >= 2
    && (exists steps :: StatedWalk(blocks, chain, steps))
    && |set i | 0 <= i < |blocks| && StatesSome(blocks, chain, blocks[i].graph) :: blocks[i].graph| >= 3
  }

  /** The relation of a property holds exactly what some block states about it. */
  lemma {:induction false} RelationHolds(blocks: seq<Block>, chain: seq<string>, p: string, x: string, y: string)
    requires p in chain
    ensures (x, y) in RelationsOf(blocks, chain)[p] <==> States(blocks, Triple(x, p, y))
  {
    if (x, y) in RelationsOf(blocks, chain)[p] {
      var k := MemberAt(Map(PairOf, Flat(Matches(p), blocks)), (x, y));
      var i, n := FlatOrigin(Matches(p), blocks, k);
      var j := FilterFound(PredicateIs(p), blocks[i].statements, n);
      assert StatedIn(blocks, i, j, Triple(x, p, y));
    }
    if States(blocks, Triple(x, p, y)) {
      var i, j :| StatedIn(blocks, i, j, Triple(x, p, y));
      var n := FilterKept(PredicateIs(p), blocks[i].statements, j);
      FlatListed(Matches(p), blocks, i, n);
      var k := MemberAt(Flat(Matches(p), blocks), Triple(x, p, y));
      assert Map(PairOf, Flat(Matches(p), blocks))[k] == (x, y);
    }
  }

  lemma {:induction false} MemberAt<T>(s: seq<T>, x: T) returns (k: nat)
    requires x in s
    ensures k < |s| && s[k] == x
  {
    k :| 0 <= k < |s| && s[k] == x;
  }

  lemma {:induction false} BlockContributes(b: Block, chain: seq<string>)
    ensures Contributes(chain, Added(b)) <==>
      exists j :: 0 <= j < |b.statements| && b.statements[j].predicate_ in chain
  {
    if Contributes(chain, Added(b)) {
      var p :| p in chain && Added(b)(p) != {};
      assert Matches(p)(b) != [];
      var j := FilterFound(PredicateIs(p), b.statements, 0);
      assert b.statements[j].predicate_ in chain;
    }
    if j :| 0 <= j < |b.statements| && b.statements[j].predicate_ in chain {
      var p := b.statements[j].predicate_;
      var n := FilterKept(PredicateIs(p), b.statements, j);
      assert Map(PairOf, Matches(p)(b))[n] in Added(b)(p);
    }
  }

  /** A graph contributes exactly if it states something about the chain. */
  lemma {:induction false} ContributingHolds(blocks: seq<Block>, chain: seq<string>, graph: string)
    ensures graph in Contributing(blocks, chain) <==> StatesSome(blocks, chain, graph)
  {
    var kept := Filter(ContributionTest(chain), blocks);
    if graph in Contributing(blocks, chain) {
      var k := MemberAt(Map(GraphOf, kept), graph);
      var i := FilterFound(ContributionTest(chain), blocks, k);
      BlockContributes(blocks[i], chain);
      var j :| 0 <= j < |blocks[i].statements| && blocks[i].statements[j].predicate_ in chain;
      assert StatedIn(blocks, i, j, blocks[i].statements[j]);
    }
    if StatesSome(blocks, chain, graph) {
      var i, j, t :| StatedIn(blocks, i, j, t) && blocks[i].graph == graph && t.predicate_ in chain;
      BlockContributes(blocks[i], chain);
      assert ContributionTest(chain)(blocks[i]);
      var k := FilterKept(ContributionTest(chain), blocks, i);
      assert Map(GraphOf, kept)[k] == graph;
    }
  }

  lemma {:induction false} ContributingSet(blocks: seq<Block>, chain: seq<string>)
    ensures Contributing(blocks, chain)
      == set i | 0 <= i < |blocks| && StatesSome(blocks, chain, blocks[i].graph) :: blocks[i].graph
  {
    forall graph ensures graph in Contributing(blocks, chain) <==>
      exists i :: 0 <= i < |blocks| && StatesSome(blocks, chain, blocks[i].graph) && blocks[i].graph == graph
    {
      ContributingHolds(blocks, chain, graph);
      if StatesSome(blocks, chain, graph) {
        var i, j, t :| StatedIn(blocks, i, j, t) && blocks[i].graph == graph && t.predicate_ in chain;
        assert blocks[i].graph == graph;
      }
    }
  }

  lemma {:induction false} DomainSet(blocks: seq<Block>)
    ensures Members(Map(DomainOf, blocks)) == set i | 0 <= i < |blocks| :: blocks[i].domain
  {
    assert forall i :: 0 <= i < |blocks| ==> Map(DomainOf, blocks)[i] == blocks[i].domain;
    forall d | d in Members(Map(DomainOf, blocks)) ensures exists i :: 0 <= i < |blocks| && blocks[i].domain == d {
      var i := MemberAt(Map(DomainOf, blocks), d);
      assert blocks[i].domain == d;
    }
  }

  lemma {:induction false} HopIsStated(blocks: seq<Block>, chain: seq<string>, i: nat, t: Triple)
    requires i < |chain| && t.predicate_ == chain[i]
    ensures (t.subject, t.object_) in RelationsOf(blocks, chain)[chain[i]] <==> States(blocks, t)
  {
    RelationHolds(blocks, chain, chain[i], t.subject, t.object_);
  }

  /** A walk through the relations is a walk through the statements. */
  lemma {:induction false} WalkIsStated(blocks: seq<Block>, chain: seq<string>, p: Path)
    requires |chain| >= 1 && Walk(RelationsOf(blocks, chain), chain, |chain|, p)
    ensures StatedWalk(blocks, chain, p.context)
  {
    forall i | 0 <= i < |chain| ensures States(blocks, p.context[i]) {
      HopIsStated(blocks, chain, i, p.context[i]);
    }
  }

  /** And the other way round; its ends are then composed. */
  lemma {:induction false} StatedIsWalk(blocks: seq<Block>, chain: seq<string>, steps: seq<Triple>)
    requires |chain| >= 1 && StatedWalk(blocks, chain, steps)
    ensures var p := Path(steps[0].subject, steps[|steps|-1].object_, steps);
      Walk(RelationsOf(blocks, chain), chain, |chain|, p)
    ensures Composed(RelationsOf(blocks, chain), chain, |chain|, steps[0].subject, steps[|steps|-1].object_)
  {
    forall i | 0 <= i < |chain|
      ensures (steps[i].subject, steps[i].object_) in RelationsOf(blocks, chain)[chain[i]]
    {
      HopIsStated(blocks, chain, i, steps[i]);
    }
    var p := Path(steps[0].subject, steps[|steps|-1].object_, steps);
    WalkIsComposed(RelationsOf(blocks, chain), chain, |chain|, p);
  }

  lemma {:induction false} WalkEnds(rel: Relations, chain: seq<string>, x: string, y: string) returns (p: Path)
    requires Covers(rel, chain) && |chain| >= 1 && Composed(rel, chain, |chain|, x, y)
    ensures Walk(rel, chain, |chain|, p) && p.context[0].subject == x && p.context[|chain|-1].object_ == y
  {
    p := ComposedHasWalk(rel, chain, |chain|, x, y);
  }

  /** A composed pair has a walk through the statements. */
  lemma {:induction false} ComposedIsStated(
      blocks: seq<Block>, rel: Relations, chain: seq<string>, x: string, y: string)
    returns (steps: seq<Triple>)
    requires |chain| >= 1 && rel == RelationsOf(blocks, chain) && Composed(rel, chain, |chain|, x, y)
    ensures StatedWalk(blocks, chain, steps) && steps[0].subject == x && steps[|steps|-1].object_ == y
  {
    var p := WalkEnds(rel, chain, x, y);
    WalkIsStated(blocks, chain, p);
    steps := p.context;
  }

  lemma {:induction false} EntailsIfWalked(blocks: seq<Block>, chain: seq<string>)
    requires |chain| >= 1
    ensures Entails(RelationsOf(blocks, chain), chain) <==> exists steps :: StatedWalk(blocks, chain, steps)
  {
    if Entails(RelationsOf(blocks, chain), chain) {
      var x, y :| Composed(RelationsOf(blocks, chain), chain, |chain|, x, y);
      var steps := ComposedIsStated(blocks, RelationsOf(blocks, chain), chain, x, y);
    }
    if steps :| StatedWalk(blocks, chain, steps) {
      StatedIsWalk(blocks, chain, steps);
    }
  }

  lemma {:induction false} GraphIsStated(blocks: seq<Block>, chain: seq<string>, target: string, t: Triple)
    returns (steps: seq<Triple>)
    requires |chain| >= 1
    requires var rel := RelationsOf(blocks, chain);
      OnSomeWalk(rel, chain, t) || (t.predicate_ == target && Composed(rel, chain, |chain|, t.subject, t.object_))
    ensures StatedWalk(blocks, chain, steps) && OnWalk(target, steps, t)
  {
    if OnSomeWalk(RelationsOf(blocks, chain), chain, t) {
      var p :| Walk(RelationsOf(blocks, chain), chain, |chain|, p) && t in p.context;
      WalkIsStated(blocks, chain, p);
      steps := p.context;
    } else {
      steps := ComposedIsStated(blocks, RelationsOf(blocks, chain), chain, t.subject, t.object_);
    }
  }

  lemma {:induction false} StatedIsGraph(
      blocks: seq<Block>, chain: seq<string>, target: string, t: Triple, steps: seq<Triple>)
    requires |chain| >= 1 && StatedWalk(blocks, chain, steps) && OnWalk(target, steps, t)
    ensures var rel := RelationsOf(blocks, chain);
      OnSomeWalk(rel, chain, t) || (t.predicate_ == target && Composed(rel, chain, |chain|, t.subject, t.object_))
  {
    StatedIsWalk(blocks, chain, steps);
  }

  /** Exactly the statements on complete walks and the consequences of the walks. */
  ghost predicate StatedGraph(blocks: seq<Block>, chain: seq<string>, target: string, graph: set<Triple>) {
    forall t :: t in graph <==> exists steps :: StatedWalk(blocks, chain, steps) && OnWalk(target, steps, t)
  }

  lemma {:induction false} ExactIsStated(blocks: seq<Block>, chain: seq<string>, target: string, graph: set<Triple>)
    requires |chain| >= 1 && ExactGraph(RelationsOf(blocks, chain), chain, target, graph)
    ensures StatedGraph(blocks, chain, target, graph)
  {
    forall t | t in graph ensures exists steps :: StatedWalk(blocks, chain, steps) && OnWalk(target, steps, t) {
      var steps := GraphIsStated(blocks, chain, target, t);
    }
    forall t, steps | StatedWalk(blocks, chain, steps) && OnWalk(target, steps, t) ensures t in graph {
      StatedIsGraph(blocks, chain, target, t, steps);
    }
  }

  /** The refusals of the evaluator, in its own terms. */
  lemma {:induction false} EvaluableIff(blocks: seq<Block>, chain: seq<string>)
    ensures Evaluable(blocks, chain) <==>
      && |blocks| >= 3 && |Members(Map(DomainOf, blocks))| >= 3 && |chain| >= 2
      && Entails(RelationsOf(blocks, chain), chain) && |Contributing(blocks, chain)| >= 3
  {
    DomainSet(blocks);
    ContributingSet(blocks, chain);
    if |chain| >= 1 { EntailsIfWalked(blocks, chain); }
  }

  /** The evaluator: the exact context graph, or a refusal. */
  method ContextGraph(blocks: seq<Block>, chain: seq<string>, target: string) returns (graph: Option<set<Triple>>)
    ensures graph.Some? <==> Evaluable(blocks, chain)
    ensures graph.Some? ==> StatedGraph(blocks, chain, target, graph.value)
  {
    EvaluableIff(blocks, chain);
    if |blocks| < 3 || |Members(Map(DomainOf, blocks))| < 3 || |chain| < 2 { return None; }
    graph := EvaluateBlocks(blocks, chain, target);
    if graph.Some? { ExactIsStated(blocks, chain, target, graph.value); }
  }

  method EvaluateBlocks(blocks: seq<Block>, chain: seq<string>, target: string) returns (graph: Option<set<Triple>>)
    requires |chain| >= 1
    ensures graph.Some? <==> Entails(RelationsOf(blocks, chain), chain) && |Contributing(blocks, chain)| >= 3
    ensures graph.Some? ==> ExactGraph(RelationsOf(blocks, chain), chain, target, graph.value)
  {
    var rel, contributing := FillRelations(blocks, chain);
    graph := EvaluateChain(rel, chain, target);
    if |contributing| < 3 { return None; }
  }

  lemma {:induction false} PathsDecideEntailment(rel: Relations, chain: seq<string>, paths: seq<Path>)
    requires Covers(rel, chain) && |chain| >= 1 && AllWalks(rel, chain, |chain|, paths)
    ensures paths != [] <==> Entails(rel, chain)
  {
    if paths != [] {
      assert paths[0] in paths;
      WalkIsComposed(rel, chain, |chain|, paths[0]);
      assert Composed(rel, chain, |chain|, paths[0].start, paths[0].current);
    }
    if Entails(rel, chain) {
      var x, y :| Composed(rel, chain, |chain|, x, y);
      var p := ComposedHasWalk(rel, chain, |chain|, x, y);
      assert p in paths;
    }
  }

  lemma {:induction false} GraphExact(
      rel: Relations, chain: seq<string>, paths: seq<Path>, target: string, found: set<Triple>)
    requires Covers(rel, chain) && |chain| >= 1 && AllWalks(rel, chain, |chain|, paths)
    requires forall t :: t in found <==> Emitted(paths, target, t)
    ensures ExactGraph(rel, chain, target, found)
  {
    forall t ensures t in found <==>
      OnSomeWalk(rel, chain, t) || (t.predicate_ == target && Composed(rel, chain, |chain|, t.subject, t.object_))
    {
      EmittedExactly(rel, chain, paths, target, t);
    }
  }

  lemma {:induction false} EmittedSnoc(paths: seq<Path>, i: nat, target: string)
    requires i < |paths|
    ensures forall t :: Emitted(paths[..i+1], target, t) <==>
      Emitted(paths[..i], target, t) || t in paths[i].context || t == Triple(paths[i].start, target, paths[i].current)
  {
    var a, b := paths[..i], paths[..i+1];
    assert b == a + [paths[i]] && paths[i] in b;
    forall t | Emitted(a, target, t) ensures Emitted(b, target, t) {
      var p :| p in a && (t in p.context || t == Triple(p.start, target, p.current));
      assert p in b;
    }
  }

  // ----- the N-Triples line of a triple

  const BASE := "https://c8-next-generation.io/ontology/release/"

  function Iri(local: string): string { "<" + BASE + local + ">" }

  function Line(t: Triple): string {
    Iri(t.subject) + (" " + (Iri(t.predicate_) + (" " + (Iri(t.object_) + " ."))))
  }

  predicate LocalName(name: string) { '>' !in name }

  lemma {:induction false} IriCut(a: string, b: string, x: string, y: string)
    requires LocalName(a) && LocalName(b) && Iri(a) + x == Iri(b) + y
    ensures a == b && x == y
  {
    var open := "<" + BASE;
    assert Iri(a) + x == open + (a + ">" + x);
    assert Iri(b) + y == open + (b + ">" + y);
    Cut(open, open, a + ">" + x, b + ">" + y);
    CutAtMark('>', a, b, x, y);
  }

  /** Different triples over local names are different lines, so the set of lines is the set of triples. */
  lemma {:induction false} LineInjective(s: Triple, t: Triple)
    requires LocalName(s.subject) && LocalName(s.predicate_) && LocalName(s.object_)
    requires LocalName(t.subject) && LocalName(t.predicate_) && LocalName(t.object_)
    requires Line(s) == Line(t)
    ensures s == t
  {
    var s3, t3 := Iri(s.object_) + " .", Iri(t.object_) + " .";
    var s2, t2 := Iri(s.predicate_) + (" " + s3), Iri(t.predicate_) + (" " + t3);
    IriCut(s.subject, t.subject, " " + s2, " " + t2);
    Cut(" ", " ", s2, t2);
    IriCut(s.predicate_, t.predicate_, " " + s3, " " + t3);
    Cut(" ", " ", s3, t3);
    IriCut(s.object_, t.object_, " .", " .");
  }
}
