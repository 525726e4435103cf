/** The order the scripts sort text by: Python compares strings code point by code point,
    and for text held as UTF-8 the byte order agrees with it. */
module Orders {
  import Sorting

  predicate Le(a: string, b: string) {
    if a == [] then true
    else if b == [] then false
    else a[0] < b[0] || (a[0] == b[0] && Le(a[1..], b[1..]))
  }

  predicate Lt(a: string, b: string) {
    Le(a, b) && a != b
  }

  lemma {:induction false} LeReflexive(a: string)
    ensures Le(a, a)
  {
    if a != [] {
      LeReflexive(a[1..]);
    }
  }

  lemma {:induction false} LeAntisymmetric(a: string, b: string)
    requires Le(a, b) && Le(b, a)
    ensures a == b
  {
    if a != [] {
      LeAntisymmetric(a[1..], b[1..]);
      assert a == [a[0]] + a[1..];
      assert b == [b[0]] + b[1..];
    }
  }

  lemma {:induction false} LeTransitive(a: string, b: string, c: string)
    requires Le(a, b) && Le(b, c)
    ensures Le(a, c)
  {
    if a != [] && a[0] == b[0] == c[0] {
      LeTransitive(a[1..], b[1..], c[1..]);
    }
  }

  lemma {:induction false} LeTotal(a: string, b: string)
    ensures Le(a, b) || Le(b, a)
  {
    if a != [] && b != [] {
      LeTotal(a[1..], b[1..]);
    }
  }

  /** `Le` is a total order, in the quantified form sorting asks for. */
  lemma {:induction false} LeIsTotalOrder()
    ensures forall a :: Le(a, a)
    ensures forall a, b :: Le(a, b) || Le(b, a)
    ensures forall a, b :: Le(a, b) && Le(b, a) ==> a == b
    ensures forall a, b, c :: Le(a, b) && Le(b, c) ==> Le(a, c)
  {
    forall a: string ensures Le(a, a) { LeReflexive(a); }
    forall a, b ensures Le(a, b) || Le(b, a) { LeTotal(a, b); }
    forall a, b | Le(a, b) && Le(b, a) ensures a == b { LeAntisymmetric(a, b); }
    forall a, b, c | Le(a, b) && Le(b, c) ensures Le(a, c) { LeTransitive(a, b, c); }
  }

  predicate StrictlyIncreasing(s: seq<string>) {
    forall i, j :: 0 <= i < j < |s| ==> Lt(s[i], s[j])
  }

  /** The first element `sorted` would yield. */
  function Least(s: set<string>): (m: string)
    requires s != {}
    ensures m in s
    ensures forall y :: y in s ==> Le(m, y)
  {
    LeastExists(s);
    assert forall a, b :: a in s && b in s && Le(a, b) && Le(b, a) ==> a == b by {
      forall a, b | a in s && b in s && Le(a, b) && Le(b, a) ensures a == b { LeAntisymmetric(a, b); }
    }
    var m :| m in s && forall y :: y in s ==> Le(m, y);
    m
  }

  lemma {:induction false} LeastExists(s: set<string>)
    requires s != {}
    ensures exists m :: m in s && forall y :: y in s ==> Le(m, y)
  {
    LeIsTotalOrder();
    var m := Sorting.LeastExists(s, Le);
  }

  /** `sorted(s)` of a set of names, or of the keys of a mapping. */
  function SortedSet(s: set<string>): (r: seq<string>)
    ensures |r| == |s|
    ensures forall x :: x in s <==> x in r
    ensures Sorting.Distinct(r)
  {
    if s == {} then [] else
      var m := Least(s);
      var rest := SortedSet(s - {m});
      assert m !in rest;
      [m] + rest
  }

  lemma {:induction false} SortedSetIncreasing(s: set<string>)
    ensures StrictlyIncreasing(SortedSet(s))
  {
    if s != {} {
      var m := Least(s);
      SortedSetIncreasing(s - {m});
      assert forall y :: y in SortedSet(s - {m}) ==> Lt(m, y);
    }
  }

  /** A strictly increasing sequence is determined by its set of elements. */
  lemma {:induction false} StrictlyIncreasingUnique(a: seq<string>, b: seq<string>)
    requires StrictlyIncreasing(a) && StrictlyIncreasing(b)
    requires |a| == |b| && forall x :: x in a <==> x in b
    ensures a == b
  {
    LeIsTotalOrder();
    if a != [] {
      assert a[0] in b && b[0] in a;
      forall x ensures x in a[1..] <==> x in b[1..] {
        if x in a[1..] { assert x in a && x != a[0]; }
        if x in b[1..] { assert x in b && x != b[0]; }
      }
      StrictlyIncreasingUnique(a[1..], b[1..]);
      assert a == [a[0]] + a[1..];
      assert b == [b[0]] + b[1..];
    }
  }
}
