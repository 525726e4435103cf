/** `collections.Counter` as the validators use it. */
module Counters {
  import opened Sorting

  datatype Tally<K> = Duplicate | Tally(counts: map<K, int>)

  /** The counter that gives each key its count. */
  ghost predicate Counts<K>(counter: map<K, int>, keys: seq<K>, counts: seq<int>) {
    && |keys| == |counts|
    && (forall d :: d in counter ==> d in keys)
    && (forall j :: 0 <= j < |keys| ==> keys[j] in counter && counter[keys[j]] == counts[j])
  }

  /** Fill a counter row by row, giving up on the first repeated key. */
  method TallyKeys<K(==)>(keys: seq<K>, counts: seq<int>) returns (r: Tally<K>)
    requires |keys| == |counts|
    ensures r.Tally? <==> Distinct(keys)
    ensures r.Tally? ==> Counts(r.counts, keys, counts)
  {
    var counter: map<K, int> := map[];
    for i := 0 to |keys|
      invariant forall d :: d in counter ==> exists j :: 0 <= j < i && keys[j] == d
      invariant forall j :: 0 <= j < i ==> keys[j] in counter && counter[keys[j]] == counts[j]
      invariant forall j, k :: 0 <= j < k < i ==> keys[j] != keys[k]
    {
      if keys[i] in counter {
        return Duplicate;
      }
      counter := counter[keys[i] := counts[i]];
    }
    return Tally(counter);
  }

  /** Counter equality, where an absent key counts zero. */
  method Agree<K(==)>(counter: map<K, int>, names: seq<K>) returns (ok: bool)
    ensures ok <==>
      && (forall d :: d in counter ==> counter[d] == multiset(names)[d])
      && (forall d :: d in names ==> d in counter)
  {
    var observed := multiset(names);
    ok := (forall d :: d in counter ==> counter[d] == observed[d]) && (forall d :: d in names ==> d in counter);
  }

  /** Every key has exactly its count of occurrences among `names`, and `names` has no other element. */
  ghost predicate ExactCover<K>(keys: seq<K>, counts: seq<int>, names: seq<K>) {
    && |keys| == |counts|
    && Distinct(keys)
    && (forall i :: 0 <= i < |keys| ==> multiset(names)[keys[i]] == counts[i])
    && (forall d :: d in names ==> d in keys)
  }

  method Covered<K(==)>(keys: seq<K>, counts: seq<int>, names: seq<K>) returns (ok: bool)
    requires |keys| == |counts|
    ensures ok <==> ExactCover(keys, counts, names)
  {
    var expected := TallyKeys(keys, counts);
    if expected.Duplicate? { return false; }
    assert forall d :: d in expected.counts <==> d in keys;
    ok := Agree(expected.counts, names);
  }

  function Sum(counts: seq<int>): int {
    if counts == [] then 0 else counts[0] + Sum(counts[1..])
  }

  function Other<K(==)>(names: seq<K>, d: K): seq<K> {
    if names == [] then []
    else (if names[0] == d then [] else [names[0]]) + Other(names[1..], d)
  }

  lemma {:induction false} OtherBag<K>(names: seq<K>, d: K)
    ensures multiset(Other(names, d)) == multiset(names)[d := 0]
    ensures |Other(names, d)| == |names| - multiset(names)[d]
  {
    if names != [] {
      assert names == [names[0]] + names[1..];
      OtherBag(names[1..], d);
    }
  }

  /** Counting conservation: the counts of an exact cover add up to the number of names. */
  lemma {:induction false} CoverTotal<K>(keys: seq<K>, counts: seq<int>, names: seq<K>)
    requires ExactCover(keys, counts, names)
    ensures Sum(counts) == |names|
    decreases |keys|
  {
    if keys == [] {
      assert forall x :: x in multiset(names) ==> x in names;
      assert multiset(names) == multiset{};
      assert |multiset(names)| == |names|;
    } else {
      var d, rest := keys[0], Other(names, keys[0]);
      OtherBag(names, d);
      assert forall i :: 0 <= i < |keys[1..]| ==> keys[1..][i] == keys[i+1] != d;
      forall x | x in rest ensures x in keys[1..] {
        assert x in multiset(rest);
        assert x in multiset(names) && x != d;
        assert x in names && x in keys;
        var j :| 0 <= j < |keys| && keys[j] == x;
        assert keys[1..][j-1] == x;
      }
      CoverTotal(keys[1..], counts[1..], rest);
    }
  }

  /** `names` lists `extra` and every element of `rest`, without repetition. */
  ghost predicate OnceEach<T>(names: seq<T>, extra: T, rest: seq<T>) {
    (set x | x in names) == {extra} + (set x | x in rest) && Distinct(names)
  }

  lemma {:induction false} OnceEachBag<T>(names: seq<T>, extra: T, rest: seq<T>)
    requires OnceEach(names, extra, rest)
    requires Distinct(rest) && extra !in rest
    ensures multiset(names) == multiset(rest + [extra])
    ensures |names| == |rest| + 1
  {
    var members, others := set y | y in names, set y | y in rest;
    forall x ensures x in names <==> x in rest + [extra] {
      assert x in names <==> x in members;
      assert x in members <==> x == extra || x in others;
      assert x in rest + [extra] <==> x in rest || x == extra;
    }
    DistinctSameBag(names, rest + [extra]);
  }
}
