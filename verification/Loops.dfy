/** Nested loops over lists: concatenation of the parts each element contributes, and filters. */
module Loops {
  import opened Options
  import opened Sequences

  /** `[y for x in s for y in f(x)]` */
  function Flat<A, B>(f: A -> seq<B>, s: seq<A>): seq<B> {
    if s == [] then [] else Flat(f, s[..|s|-1]) + f(s[|s|-1])
  }

  lemma {:induction false} FlatStep<A, B>(f: A -> seq<B>, s: seq<A>, i: nat)
    requires i < |s|
    ensures Flat(f, s[..i+1]) == Flat(f, s[..i]) + f(s[i])
  {
    var t := s[..i+1];
    assert t[..i] == s[..i] && t[i] == s[i];
  }

  /** Each element of the result is one that some `f(s[m])` contributed. */
  lemma {:induction false} FlatOrigin<A, B>(f: A -> seq<B>, s: seq<A>, k: nat) returns (m: nat, n: nat)
    requires k < |Flat(f, s)|
    ensures m < |s| && n < |f(s[m])| && Flat(f, s)[k] == f(s[m])[n]
    decreases |s|
  {
    var last := |s| - 1;
    var init := s[..last];
    if k < |Flat(f, init)| {
      m, n := FlatOrigin(f, init, k);
      assert init[m] == s[m];
    } else {
      m, n := last, k - |Flat(f, init)|;
    }
  }

  lemma {:induction false} FlatListed<A, B>(f: A -> seq<B>, s: seq<A>, m: nat, n: nat)
    requires m < |s| && n < |f(s[m])|
    ensures f(s[m])[n] in Flat(f, s)
    decreases |s|
  {
    var last := |s| - 1;
    if m < last {
      assert s[..last][m] == s[m];
      FlatListed(f, s[..last], m, n);
    }
  }

  /** The bag of all contributions does not depend on the order of the elements. */
  lemma {:induction false} FlatPermutation<A, B>(f: A -> seq<B>, a: seq<A>, b: seq<A>)
    requires multiset(a) == multiset(b)
    ensures multiset(Flat(f, a)) == multiset(Flat(f, b))
    decreases |a|
  {
    assert |multiset(a)| == |a| && |multiset(b)| == |b|;
    if a != [] {
      var n := |a| - 1;
      assert a[n] in multiset(b);
      var k :| 0 <= k < |b| && b[k] == a[n];
      FlatWithout(f, a, n);
      FlatWithout(f, b, k);
      BagWithout(a, n);
      BagWithout(b, k);
      FlatPermutation(f, Without(a, n), Without(b, k));
    }
  }

  lemma {:induction false} FlatWithout<A, B>(f: A -> seq<B>, s: seq<A>, k: nat)
    requires k < |s|
    ensures multiset(Flat(f, s)) == multiset(Flat(f, Without(s, k))) + multiset(f(s[k]))
    decreases |s|
  {
    var n := |s| - 1;
    FlatBag(f, s);
    if k == n {
      assert Without(s, k) == s[..n];
    } else {
      FlatWithout(f, s[..n], k);
      var rest := Without(s, k);
      WithoutFront(s, k);
      FlatBag(f, rest);
      Regroup(multiset(Flat(f, s)), multiset(Flat(f, s[..n])), multiset(Flat(f, rest)), multiset(Flat(f, rest[..n-1])),
              multiset(f(s[k])), multiset(f(s[n])));
    }
  }

  lemma {:induction false} FlatBag<A, B>(f: A -> seq<B>, s: seq<A>)
    requires s != []
    ensures multiset(Flat(f, s)) == multiset(Flat(f, s[..|s|-1])) + multiset(f(s[|s|-1]))
  {
  }

  lemma {:induction false} Regroup<T>(
      all: multiset<T>, init: multiset<T>, rest: multiset<T>, front: multiset<T>, x: multiset<T>, y: multiset<T>)
    requires all == init + y && init == front + x && rest == front + y
    ensures all == rest + x
  {
  }

  lemma {:induction false} WithoutFront<T>(s: seq<T>, k: nat)
    requires k < |s| - 1
    ensures |Without(s, k)| == |s| - 1
    ensures Without(s, k)[..|s|-2] == Without(s[..|s|-1], k) && Without(s, k)[|s|-2] == s[|s|-1]
  {
  }

  // ----- filters

  /** `[x for x in s if p(x)]` */
  function Filter<A>(p: A -> bool, s: seq<A>): seq<A> {
    if s == [] then [] else
      var init := Filter(p, s[..|s|-1]);
      if p(s[|s|-1]) then init + [s[|s|-1]] else init
  }

  lemma {:induction false} FilterFound<A>(p: A -> bool, s: seq<A>, i: nat) returns (k: nat)
    requires i < |Filter(p, s)|
    ensures k < |s| && s[k] == Filter(p, s)[i] && p(s[k])
    decreases |s|
  {
    var n := |s| - 1;
    if i < |Filter(p, s[..n])| {
      k := FilterFound(p, s[..n], i);
      assert s[..n][k] == s[k];
    } else {
      k := n;
    }
  }

  lemma {:induction false} FilterKept<A>(p: A -> bool, s: seq<A>, k: nat) returns (i: nat)
    requires k < |s| && p(s[k])
    ensures i < |Filter(p, s)| && Filter(p, s)[i] == s[k]
    decreases |s|
  {
    var n := |s| - 1;
    if k == n {
      i := |Filter(p, s)| - 1;
    } else {
      assert s[..n][k] == s[k];
      i := FilterKept(p, s[..n], k);
    }
  }

  lemma {:induction false} FilterSnoc<A>(p: A -> bool, s: seq<A>, x: A)
    ensures Filter(p, s + [x]) == if p(x) then Filter(p, s) + [x] else Filter(p, s)
  {
    assert (s + [x])[..|s|] == s;
  }

  lemma {:induction false} FilterConcat<A>(p: A -> bool, a: seq<A>, b: seq<A>)
    ensures Filter(p, a + b) == Filter(p, a) + Filter(p, b)
    decreases |b|
  {
    if b == [] {
      assert a + b == a;
    } else {
      var n := |b| - 1;
      FilterConcat(p, a, b[..n]);
      var s := a + b;
      assert s[..|s|-1] == a + b[..n] && s[|s|-1] == b[n];
    }
  }

  lemma {:induction false} FilterNone<A>(p: A -> bool, s: seq<A>)
    requires forall i :: 0 <= i < |s| ==> !p(s[i])
    ensures Filter(p, s) == []
  {
    if s != [] {
      FilterNone(p, s[..|s|-1]);
    }
  }

  lemma {:induction false} FilterAll<A>(p: A -> bool, s: seq<A>)
    requires forall i :: 0 <= i < |s| ==> p(s[i])
    ensures Filter(p, s) == s
  {
    if s != [] {
      FilterAll(p, s[..|s|-1]);
      assert s == s[..|s|-1] + [s[|s|-1]];
    }
  }

  lemma {:induction false} FilterOne<A>(p: A -> bool, a: A)
    ensures Filter(p, [a]) == if p(a) then [a] else []
  {
    var none: seq<A> := [];
    FilterSnoc(p, none, a);
    assert none + [a] == [a] && Filter(p, none) == none;
  }

  lemma {:induction false} FilterPair<A>(p: A -> bool, a: A, b: A)
    ensures Filter(p, [a, b]) == Filter(p, [a]) + Filter(p, [b])
  {
    FilterConcat(p, [a], [b]);
    assert [a] + [b] == [a, b];
  }

  lemma {:induction false} FilterCount<A>(p: A -> bool, s: seq<A>, x: A)
    ensures multiset(Filter(p, s))[x] == if p(x) then multiset(s)[x] else 0
  {
    if s != [] {
      var n := |s| - 1;
      FilterCount(p, s[..n], x);
      assert s == s[..n] + [s[n]];
    }
  }

  lemma {:induction false} FilterWithout<A>(p: A -> bool, s: seq<A>, k: nat)
    requires k < |s|
    ensures multiset(Filter(p, s)) == multiset(Filter(p, Without(s, k))) + multiset(Filter(p, [s[k]]))
  {
    var a, b, c := s[..k], [s[k]], s[k+1..];
    assert s == a + b + c;
    FilterConcat(p, a + b, c);
    FilterConcat(p, a, b);
    FilterConcat(p, a, c);
  }

  lemma {:induction false} FilterPermutation<A>(p: A -> bool, a: seq<A>, b: seq<A>)
    requires multiset(a) == multiset(b)
    ensures multiset(Filter(p, a)) == multiset(Filter(p, b))
    decreases |a|
  {
    assert |multiset(a)| == |a| && |multiset(b)| == |b|;
    if a == [] {
      assert b == [];
    } else {
      assert a[0] in multiset(b);
      var k :| 0 <= k < |b| && b[k] == a[0];
      FilterWithout(p, a, 0);
      FilterWithout(p, b, k);
      BagWithout(a, 0);
      BagWithout(b, k);
      FilterPermutation(p, Without(a, 0), Without(b, k));
    }
  }

  function Compose<A, B>(p: B -> bool, f: A -> B): A -> bool {
    (x: A) => p(f(x))
  }

  lemma {:induction false} ComposeAt<A, B>(p: B -> bool, f: A -> B, x: A)
    ensures Compose(p, f)(x) == p(f(x))
  {
  }

  /** Filtering on a field and then taking it is taking it and then filtering. */
  lemma {:induction false} FilterMap<A, B>(p: B -> bool, f: A -> B, s: seq<A>)
    ensures Map(f, Filter(Compose(p, f), s)) == Filter(p, Map(f, s))
  {
    if s != [] {
      var init, x := s[..|s|-1], s[|s|-1];
      assert s == init + [x];
      FilterMap(p, f, init);
      FilterSnoc(Compose(p, f), init, x);
      FilterSnoc(p, Map(f, init), f(x));
      MapSnoc(f, init, x);
      MapSnoc(f, Filter(Compose(p, f), init), x);
    }
  }

  /** If only `s[k]` contributes anything that passes, the filter sees only its contribution. */
  lemma {:induction false} FilterFlatOnly<A, B>(p: B -> bool, f: A -> seq<B>, s: seq<A>, k: nat)
    requires k < |s| && forall i :: 0 <= i < |s| && i != k ==> Filter(p, f(s[i])) == []
    ensures Filter(p, Flat(f, s)) == Filter(p, f(s[k]))
    decreases |s|
  {
    var n := |s| - 1;
    FilterConcat(p, Flat(f, s[..n]), f(s[n]));
    if k == n {
      FilterFlatNone(p, f, s[..n]);
    } else {
      FilterFlatOnly(p, f, s[..n], k);
    }
  }

  lemma {:induction false} FilterFlatNone<A, B>(p: B -> bool, f: A -> seq<B>, s: seq<A>)
    requires forall i :: 0 <= i < |s| ==> Filter(p, f(s[i])) == []
    ensures Filter(p, Flat(f, s)) == []
  {
    if s != [] {
      var n := |s| - 1;
      FilterFlatNone(p, f, s[..n]);
      FilterConcat(p, Flat(f, s[..n]), f(s[n]));
    }
  }

  /** Filters that pass the same places of two lists keep related elements related. */
  lemma {:induction false} FilterAligned<A, C>(
      p: A -> bool, s: seq<A>, test: C -> bool, xs: seq<C>, related: (A, C) -> bool)
    requires |s| == |xs|
    requires forall i :: 0 <= i < |s| ==> p(s[i]) == test(xs[i]) && related(s[i], xs[i])
    ensures |Filter(p, s)| == |Filter(test, xs)|
    ensures forall k :: 0 <= k < |Filter(p, s)| ==> related(Filter(p, s)[k], Filter(test, xs)[k])
    decreases |s|
  {
    if s != [] {
      FilterAligned(p, s[..|s|-1], test, xs[..|s|-1], related);
    }
  }

  /** A loop that appends one element exactly for the inputs that pass appends, in order, one for each of those. */
  lemma {:induction false} FlatAligned<A, B, C>(
      f: A -> seq<B>, s: seq<A>, test: C -> bool, xs: seq<C>, related: (B, C) -> bool)
    requires |s| == |xs|
    requires forall i :: 0 <= i < |s| ==> |f(s[i])| == if test(xs[i]) then 1 else 0
    requires forall i :: 0 <= i < |s| && test(xs[i]) ==> related(f(s[i])[0], xs[i])
    ensures |Flat(f, s)| == |Filter(test, xs)|
    ensures forall k :: 0 <= k < |Flat(f, s)| ==> related(Flat(f, s)[k], Filter(test, xs)[k])
    decreases |s|
  {
    if s != [] {
      var n := |s| - 1;
      FlatAligned(f, s[..n], test, xs[..n], related);
    }
  }

  // ----- loops that may give up

  /** `None` as soon as either part failed. */
  function Both<B>(a: Option<seq<B>>, b: Option<seq<B>>): Option<seq<B>> {
    if a.None? || b.None? then None else Some(a.value + b.value)
  }

  lemma {:induction false} TraverseExact<A, B>(f: A -> Option<B>, s: seq<A>, r: seq<B>)
    requires |r| == |s| && forall i :: 0 <= i < |s| ==> f(s[i]) == Some(r[i])
    ensures Traverse(f, s) == Some(r)
  {
    var t := Traverse(f, s).value;
    forall i | 0 <= i < |s| ensures t[i] == r[i] {
      assert f(s[i]) == Some(t[i]);
    }
    assert t == r;
  }

  lemma {:induction false} TraverseSame<A, B>(f: A -> Option<B>, g: A -> Option<B>, s: seq<A>)
    requires forall i :: 0 <= i < |s| ==> f(s[i]) == g(s[i])
    ensures Traverse(f, s) == Traverse(g, s)
  {
    if Traverse(f, s).Some? {
      TraverseExact(g, s, Traverse(f, s).value);
    } else {
      var i :| 0 <= i < |s| && f(s[i]).None?;
      assert g(s[i]).None?;
    }
  }

  lemma {:induction false} TraverseConcat<A, B>(f: A -> Option<B>, a: seq<A>, b: seq<A>)
    ensures Traverse(f, a + b) == Both(Traverse(f, a), Traverse(f, b))
  {
    var s := a + b;
    if Traverse(f, a).None? {
      var i :| 0 <= i < |a| && f(a[i]).None?;
      assert s[i] == a[i];
    } else if Traverse(f, b).None? {
      var i :| 0 <= i < |b| && f(b[i]).None?;
      assert s[|a| + i] == b[i];
    } else {
      var r := Traverse(f, a).value + Traverse(f, b).value;
      forall i | 0 <= i < |s| ensures f(s[i]) == Some(r[i]) {
        if i < |a| { assert s[i] == a[i]; } else { assert s[i] == b[i - |a|]; }
      }
      TraverseExact(f, s, r);
    }
  }

  /** One more turn of an outer loop whose body runs `f` over the contribution of one element. */
  lemma {:induction false} TraverseFlatStep<A, B, C>(f: B -> Option<C>, g: A -> seq<B>, s: seq<A>, i: nat)
    requires i < |s|
    ensures Traverse(f, Flat(g, s[..i+1])) == Both(Traverse(f, Flat(g, s[..i])), Traverse(f, g(s[i])))
    ensures Traverse(f, Flat(g, s)).Some? ==> Traverse(f, Flat(g, s[..i+1])).Some?
  {
    FlatStep(g, s, i);
    TraverseConcat(f, Flat(g, s[..i]), g(s[i]));
    TraverseFlatPrefix(f, g, s, i + 1);
  }

  lemma {:induction false} TraverseFlatPrefix<A, B, C>(f: B -> Option<C>, g: A -> seq<B>, s: seq<A>, i: nat)
    requires i <= |s|
    ensures Traverse(f, Flat(g, s)).Some? ==> Traverse(f, Flat(g, s[..i])).Some?
    decreases |s| - i
  {
    if i == |s| {
      assert s[..i] == s;
    } else {
      TraverseFlatPrefix(f, g, s, i + 1);
      FlatStep(g, s, i);
      TraverseConcat(f, Flat(g, s[..i]), g(s[i]));
    }
  }
}
