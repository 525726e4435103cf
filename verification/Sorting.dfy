/** Python's `sorted(xs, key=...)`: stable, by a total preorder given as a named predicate. */
module Sorting {
  import opened Sequences

  ghost predicate TotalPreorder<T(!new)>(le: (T, T) -> bool) {
    && (forall a, b :: le(a, b) || le(b, a))
    && (forall a, b, c :: le(a, b) && le(b, c) ==> le(a, c))
  }

  ghost predicate SortedBy<T>(s: seq<T>, le: (T, T) -> bool) {
    forall i, j :: 0 <= i < j < |s| ==> le(s[i], s[j])
  }

  function Insert<T(!new)>(x: T, s: seq<T>, le: (T, T) -> bool): (r: seq<T>)
    requires TotalPreorder(le)
    requires SortedBy(s, le)
    ensures multiset(r) == multiset{x} + multiset(s)
    ensures SortedBy(r, le)
    ensures forall y :: y in r ==> y == x || y in s
  {
    if s == [] then [x]
    else if le(x, s[0]) then
      var r := [x] + s;
      r
    else
      assert s == [s[0]] + s[1..];
      var rest := Insert(x, s[1..], le);
      assert forall y :: y in rest ==> le(s[0], y);
      [s[0]] + rest
  }

  function SortBy<T(!new)>(s: seq<T>, le: (T, T) -> bool): (r: seq<T>)
    requires TotalPreorder(le)
    ensures multiset(r) == multiset(s)
    ensures SortedBy(r, le)
  {
    if s == [] then [] else
      assert s == [s[0]] + s[1..];
      Insert(s[0], SortBy(s[1..], le), le)
  }

  lemma {:induction false} SameMembers<T>(a: seq<T>, b: seq<T>)
    requires multiset(a) == multiset(b)
    ensures |a| == |b|
    ensures forall x :: x in a <==> x in b
  {
    assert |multiset(a)| == |a| && |multiset(b)| == |b|;
    forall x ensures x in a <==> x in b {
      assert x in a <==> x in multiset(a);
      assert x in b <==> x in multiset(b);
    }
  }

  lemma {:induction false} HeadsAgree<T>(a: seq<T>, b: seq<T>, le: (T, T) -> bool)
    requires SortedBy(a, le) && SortedBy(b, le)
    requires multiset(a) == multiset(b) && a != [] && b != []
    requires forall x, y :: x in a && y in a && le(x, y) && le(y, x) ==> x == y
    ensures a[0] == b[0]
    ensures multiset(a[1..]) == multiset(b[1..])
  {
    SameMembers(a, b);
    assert a[0] in b && b[0] in a;
    var i :| 0 <= i < |b| && b[i] == a[0];
    var j :| 0 <= j < |a| && a[j] == b[0];
    assert a[0] == b[0];
    BagWithout(a, 0);
    BagWithout(b, 0);
    assert Without(a, 0) == a[1..] && Without(b, 0) == b[1..];
  }

  /** Where the order is strict on the elements at hand, sorting forgets the input order. */
  lemma {:induction false} SortedUnique<T>(a: seq<T>, b: seq<T>, le: (T, T) -> bool)
    requires SortedBy(a, le) && SortedBy(b, le)
    requires multiset(a) == multiset(b)
    requires forall x, y :: x in a && y in a && le(x, y) && le(y, x) ==> x == y
    ensures a == b
  {
    SameMembers(a, b);
    if a != [] {
      HeadsAgree(a, b, le);
      SortedUnique(a[1..], b[1..], le);
      assert a == [a[0]] + a[1..] && b == [b[0]] + b[1..];
    }
  }

  predicate Distinct<T(==)>(s: seq<T>) {
    forall i, j :: 0 <= i < j < |s| ==> s[i] != s[j]
  }

  /** A sequence has no repetition exactly when no element occurs twice in its multiset. */
  lemma {:induction false} DistinctAsMultiset<T>(s: seq<T>)
    ensures Distinct(s) <==> forall x :: multiset(s)[x] <= 1
  {
    if Distinct(s) {
      forall x ensures multiset(s)[x] <= 1 { DistinctCount(s, x); }
    }
    if i, j :| 0 <= i < j < |s| && s[i] == s[j] {
      assert s == s[..j] + s[j..];
      assert s[..j][i] == s[j..][0] == s[i];
      assert multiset(s) == multiset(s[..j]) + multiset(s[j..]);
      assert multiset(s[..j])[s[i]] >= 1 && multiset(s[j..])[s[i]] >= 1;
      assert multiset(s)[s[i]] >= 2;
    }
  }

  lemma {:induction false} DistinctCount<T>(s: seq<T>, x: T)
    requires Distinct(s)
    ensures multiset(s)[x] == if x in s then 1 else 0
  {
    if s != [] {
      assert s == [s[0]] + s[1..];
      DistinctCount(s[1..], x);
    }
  }

  lemma {:induction false} DistinctPermutation<T>(a: seq<T>, b: seq<T>)
    requires multiset(a) == multiset(b)
    requires Distinct(a)
    ensures Distinct(b)
  {
    DistinctAsMultiset(a);
    DistinctAsMultiset(b);
  }

  /** `len(xs) == len(set(xs))` is how the scripts test for repetitions. */
  lemma {:induction false} DistinctBySize<T>(s: seq<T>)
    ensures |set x | x in s| <= |s|
    ensures |set x | x in s| == |s| <==> Distinct(s)
  {
    if s != [] {
      var init, last := s[..|s|-1], s[|s|-1];
      var members, initMembers := set x | x in s, set x | x in init;
      assert s == init + [last];
      assert members == initMembers + {last};
      DistinctBySize(init);
      if Distinct(s) {
        assert last !in initMembers;
      }
      if last in initMembers {
        assert members == initMembers;
      }
    }
  }

  lemma {:induction false} SubsetOfSameSize<T>(a: set<T>, b: set<T>)
    requires a <= b && |a| == |b|
    ensures a == b
  {
    if x :| x in b && x !in a {
      assert a <= b - {x};
      SizeOfSubset(a, b - {x});
    }
  }

  lemma {:induction false} SizeOfSubset<T>(a: set<T>, b: set<T>)
    requires a <= b
    ensures |a| <= |b|
    decreases |a|
  {
    if a != {} {
      var x :| x in a;
      SizeOfSubset(a - {x}, b - {x});
    }
  }

  lemma {:induction false} DistinctSameBag<T>(a: seq<T>, b: seq<T>)
    requires Distinct(a) && Distinct(b)
    requires forall x :: x in a <==> x in b
    ensures multiset(a) == multiset(b)
    ensures |a| == |b|
  {
    forall x ensures multiset(a)[x] == multiset(b)[x] {
      DistinctCount(a, x);
      DistinctCount(b, x);
    }
    assert |multiset(a)| == |a| && |multiset(b)| == |b|;
  }

  lemma {:induction false} LeastExists<T(!new)>(s: set<T>, le: (T, T) -> bool) returns (m: T)
    requires TotalPreorder(le) && s != {}
    ensures m in s && forall y :: y in s ==> le(m, y)
    decreases |s|
  {
    var x :| x in s;
    var rest := s - {x};
    assert le(x, x);
    if rest == {} {
      assert s == {x};
      return x;
    }
    var least := LeastExists(rest, le);
    m := if le(x, least) then x else least;
    forall y | y in s ensures le(m, y) {
      assert y == x || y in rest;
    }
  }

  /** Sorting a list that is already strictly sorted changes nothing. */
  lemma {:induction false} SortedStays<T(!new)>(s: seq<T>, le: (T, T) -> bool)
    requires TotalPreorder(le)
    requires forall i, j :: 0 <= i < j < |s| ==> le(s[i], s[j]) && !le(s[j], s[i])
    ensures SortBy(s, le) == s
  {
    var r := SortBy(s, le);
    SameMembers(r, s);
    forall x, y | x in r && y in r && le(x, y) && le(y, x) ensures x == y {
      var i :| 0 <= i < |s| && s[i] == x;
      var j :| 0 <= j < |s| && s[j] == y;
      assert i == j;
    }
    SortedUnique(r, s, le);
  }

  function Members<T(==)>(s: seq<T>): set<T> {
    set x | x in s
  }

  lemma {:induction false} MembersSnoc<T>(s: seq<T>, x: T)
    ensures Members(s + [x]) == Members(s) + {x}
  {
  }

  /** A growing prefix stays free of repetitions exactly while each new element is new. */
  lemma {:induction false} DistinctPrefix<T>(s: seq<T>, k: nat)
    requires k < |s| && Distinct(s[..k])
    ensures Distinct(s[..k+1]) <==> s[k] !in s[..k]
    ensures s[k] in s[..k] ==> !Distinct(s)
    ensures Members(s[..k+1]) == Members(s[..k]) + {s[k]}
  {
    var p, q := s[..k], s[..k+1];
    assert q == p + [s[k]];
    if s[k] in p {
      var i :| 0 <= i < k && p[i] == s[k];
      assert q[i] == q[k] && s[i] == s[k];
    }
  }

  lemma {:induction false} DistinctConcat<T>(a: seq<T>, b: seq<T>)
    requires Distinct(a) && Distinct(b) && forall x :: x in a ==> x !in b
    ensures Distinct(a + b)
  {
    var s := a + b;
    forall i, j | 0 <= i < j < |s| ensures s[i] != s[j] {
      if i < |a| <= j {
        assert s[i] == a[i] && a[i] in a && s[j] == b[j-|a|] && b[j-|a|] in b;
      }
    }
  }

  lemma {:induction false} DistinctSnoc<T>(s: seq<T>, x: T)
    ensures Distinct(s + [x]) <==> Distinct(s) && x !in s
  {
    var t := s + [x];
    if Distinct(t) {
      forall i, j | 0 <= i < j < |s| ensures s[i] != s[j] { assert t[i] == s[i] && t[j] == s[j]; }
      forall i | 0 <= i < |s| ensures s[i] != x { assert t[i] == s[i] && t[|s|] == x; }
    }
  }

  predicate Each<T>(test: T -> bool, s: seq<T>) {
    forall i :: 0 <= i < |s| ==> test(s[i])
  }

  lemma {:induction false} EachStep<T>(test: T -> bool, s: seq<T>, i: nat)
    requires i < |s|
    ensures Each(test, s[..i+1]) <==> Each(test, s[..i]) && test(s[i])
    ensures Each(test, s) ==> test(s[i])
  {
    var p, q := s[..i], s[..i+1];
    assert q == p + [s[i]] && q[i] == s[i];
    assert forall k :: 0 <= k < |p| ==> q[k] == p[k];
  }

  lemma {:induction false} EachPermutation<T>(test: T -> bool, a: seq<T>, b: seq<T>)
    requires multiset(a) == multiset(b)
    ensures Each(test, a) ==> Each(test, b)
  {
    if Each(test, a) {
      SameMembers(a, b);
      forall i | 0 <= i < |b| ensures test(b[i]) {
        assert b[i] in a;
      }
    }
  }

  /** `DistinctPrefix` for a field of the elements. */
  lemma {:induction false} MapPrefix<A, B>(f: A -> B, s: seq<A>, i: nat)
    requires i < |s| && Distinct(Map(f, s[..i]))
    ensures Distinct(Map(f, s[..i+1])) <==> f(s[i]) !in Map(f, s[..i])
    ensures Distinct(Map(f, s)) ==> f(s[i]) !in Map(f, s[..i])
    ensures Members(Map(f, s[..i+1])) == Members(Map(f, s[..i])) + {f(s[i])}
  {
    var all := Map(f, s);
    assert all[..i] == Map(f, s[..i]) && all[..i+1] == Map(f, s[..i+1]);
    DistinctPrefix(all, i);
  }
}
