/** Comprehensions over lists: `[f(x) for x in s]`, `[x for x in s if p(x)]` and sums. */
module Sequences {
  import opened Options

  function Map<A, B>(f: A -> B, s: seq<A>): (r: seq<B>)
    ensures |r| == |s|
    ensures forall i :: 0 <= i < |s| ==> r[i] == f(s[i])
  {
    if s == [] then [] else [f(s[0])] + Map(f, s[1..])
  }

  lemma {:induction false} MapSnoc<A, B>(f: A -> B, s: seq<A>, x: A)
    ensures Map(f, s + [x]) == Map(f, s) + [f(x)]
  {
    var a, b := Map(f, s + [x]), Map(f, s) + [f(x)];
    assert forall i :: 0 <= i < |a| ==> a[i] == b[i];
  }

  lemma {:induction false} MapMember<A, B>(f: A -> B, s: seq<A>, y: B)
    ensures y in Map(f, s) <==> exists x :: x in s && f(x) == y
  {
    if y in Map(f, s) {
      var i :| 0 <= i < |s| && Map(f, s)[i] == y;
      assert s[i] in s && f(s[i]) == y;
    }
    if x :| x in s && f(x) == y {
      var i :| 0 <= i < |s| && s[i] == x;
      assert Map(f, s)[i] == y;
    }
  }

  /** A loop that appends `f(x)` for each element and gives up at the first failure. */
  function Traverse<A, B>(f: A -> Option<B>, s: seq<A>): (r: Option<seq<B>>)
    ensures r.Some? <==> forall i :: 0 <= i < |s| ==> f(s[i]).Some?
    ensures r.Some? ==> |r.value| == |s| && forall i :: 0 <= i < |s| ==> f(s[i]) == Some(r.value[i])
  {
    if s == [] then Some([]) else
      var x, rest := f(s[0]), Traverse(f, s[1..]);
      assert forall i :: 0 < i < |s| ==> s[i] == s[1..][i-1];
      assert forall i :: 0 <= i < |s[1..]| ==> s[1..][i] == s[i+1];
      if x.None? || rest.None? then None else Some([x.value] + rest.value)
  }

  lemma {:induction false} TraverseStep<A, B>(f: A -> Option<B>, s: seq<A>, i: nat, done: seq<B>)
    requires i < |s| && Traverse(f, s[..i]) == Some(done)
    ensures f(s[i]).None? ==> Traverse(f, s).None?
    ensures f(s[i]).Some? ==> Traverse(f, s[..i+1]) == Some(done + [f(s[i]).value])
  {
    var p, q := s[..i], s[..i+1];
    assert forall k :: 0 <= k < i ==> p[k] == q[k] == s[k];
    assert q[i] == s[i];
    if f(s[i]).Some? {
      forall k | 0 <= k < |q| ensures f(q[k]).Some? {
        if k < i { assert f(p[k]).Some?; }
      }
      var r, t := Traverse(f, q).value, done + [f(s[i]).value];
      forall k | 0 <= k < |q| ensures r[k] == t[k] {
        if k < i { assert f(p[k]) == Some(done[k]) && f(q[k]) == Some(r[k]); }
      }
      assert r == t;
    }
  }

  function Without<A>(s: seq<A>, k: nat): seq<A>
    requires k < |s|
  {
    s[..k] + s[k+1..]
  }

  lemma {:induction false} BagWithout<A>(s: seq<A>, k: nat)
    requires k < |s|
    ensures multiset(s) == multiset(Without(s, k)) + multiset{s[k]}
    ensures multiset(Without(s, k)) == multiset(s) - multiset{s[k]}
  {
    assert s == s[..k] + [s[k]] + s[k+1..];
  }

  lemma {:induction false} MapWithout<A, B>(f: A -> B, s: seq<A>, k: nat)
    requires k < |s|
    ensures Map(f, Without(s, k)) == Without(Map(f, s), k)
  {
    var a, b := Map(f, Without(s, k)), Without(Map(f, s), k);
    assert |a| == |b|;
    assert forall i :: 0 <= i < |a| ==> a[i] == b[i];
  }

  /** Images of the same bag are the same bag. */
  lemma {:induction false} MapPermutation<A, B>(f: A -> B, a: seq<A>, b: seq<A>)
    requires multiset(a) == multiset(b)
    ensures multiset(Map(f, a)) == multiset(Map(f, b))
  {
    assert |multiset(a)| == |a| && |multiset(b)| == |b|;
    if a != [] {
      var x := a[0];
      assert x in multiset(b);
      var k :| 0 <= k < |b| && b[k] == x;
      BagWithout(a, 0);
      BagWithout(b, k);
      MapPermutation(f, Without(a, 0), Without(b, k));
      MapWithout(f, a, 0);
      MapWithout(f, b, k);
      BagWithout(Map(f, a), 0);
      BagWithout(Map(f, b), k);
    }
  }

  /** Where `f` is one to one, it does not merge occurrences. */
  lemma {:induction false} MapCount<A, B>(f: A -> B, s: seq<A>, x: A)
    requires forall y :: y in s && f(y) == f(x) ==> y == x
    ensures multiset(Map(f, s))[f(x)] == multiset(s)[x]
  {
    if s != [] {
      assert s == [s[0]] + s[1..];
      assert s[0] in s;
      assert Map(f, s) == [f(s[0])] + Map(f, s[1..]);
      MapCount(f, s[1..], x);
    }
  }

  /** If `f` is one to one on both lists, equal bags of images come from equal bags. */
  lemma {:induction false} MapReflectsBags<A, B>(f: A -> B, a: seq<A>, b: seq<A>)
    requires forall x, y :: x in a + b && y in a + b && f(x) == f(y) ==> x == y
    requires multiset(Map(f, a)) == multiset(Map(f, b))
    ensures multiset(a) == multiset(b)
  {
    forall x ensures multiset(a)[x] == multiset(b)[x] {
      if x in a + b {
        MapCount(f, a, x);
        MapCount(f, b, x);
      } else {
        assert x !in a && x !in b;
      }
    }
  }

  lemma {:induction false} Associate<T>(a: seq<T>, b: seq<T>, c: seq<T>)
    ensures a + b + c == a + (b + c)
  {
  }

  /** Equally long fronts can be cut off. */
  lemma {:induction false} Cut<T>(p: seq<T>, q: seq<T>, x: seq<T>, y: seq<T>)
    requires p + x == q + y && |p| == |q|
    ensures p == q && x == y
  {
    assert (p + x)[..|p|] == p && (q + y)[..|q|] == q;
    assert (p + x)[|p|..] == x && (q + y)[|q|..] == y;
  }

  lemma {:induction false} NotTheMark<T>(mark: T, a: seq<T>, x: seq<T>, k: nat)
    requires mark !in a && k < |a|
    ensures (a + [mark] + x)[k] != mark
  {
    assert (a + [mark] + x)[k] == a[k] && a[k] in a;
  }

  /** The first occurrence of a mark splits a text in only one way. */
  lemma {:induction false} CutAtMark<T>(mark: T, a: seq<T>, b: seq<T>, x: seq<T>, y: seq<T>)
    requires mark !in a && mark !in b
    requires a + [mark] + x == b + [mark] + y
    ensures a == b && x == y
  {
    var s := a + [mark] + x;
    assert s[|a|] == mark && s[|b|] == mark;
    forall k | 0 <= k < |a| ensures s[k] != mark { NotTheMark(mark, a, x, k); }
    forall k | 0 <= k < |b| ensures s[k] != mark { NotTheMark(mark, b, y, k); }
    assert |a| == |b|;
    assert s[..|a|] == a && s[..|b|] == b;
    assert s[|a|+1..] == x && s[|b|+1..] == y;
  }
}
