/** What the three partitioned phases share: the stable assignment of work to partitions, and one
    report per partition, in order. */
module Partitions {
  import opened Sorting
  import opened Sequences

  type PartitionCount = n: int | n > 0 witness 1

  /** The first eight bytes of the digest of an identity, read as a big-endian number, modulo the count. */
  function StablePartition(bucket: string -> nat, id: string, inputSha: string, count: PartitionCount): (p: int)
    ensures 0 <= p < count
  {
    bucket(id + "\0" + inputSha) % count
  }

  /** Report `i` is acceptable as the report of partition `i`. */
  predicate AllAccepted<R>(accept: (int, R) -> bool, sorted: seq<R>) {
    forall i :: 0 <= i < |sorted| ==> accept(i, sorted[i])
  }

  lemma {:induction false} AcceptedStep<R>(accept: (int, R) -> bool, sorted: seq<R>, i: nat)
    requires i < |sorted| && AllAccepted(accept, sorted[..i])
    ensures AllAccepted(accept, sorted[..i+1]) <==> accept(i, sorted[i])
    ensures AllAccepted(accept, sorted) ==> accept(i, sorted[i])
  {
    var s, t := sorted[..i], sorted[..i+1];
    assert forall k :: 0 <= k < i ==> t[k] == s[k];
    assert t[i] == sorted[i];
  }

  lemma {:induction false} DenseFrom(s: seq<int>, k: nat)
    requires k < |s|
    requires forall i, j :: 0 <= i < j < |s| ==> s[i] < s[j]
    requires forall i :: 0 <= i < |s| ==> 0 <= s[i] < |s|
    ensures s[k] >= k && s[|s|-1-k] <= |s| - 1 - k
  {
    if k > 0 {
      DenseFrom(s, k - 1);
      assert s[k-1] < s[k];
      assert s[|s|-1-k] < s[|s|-k];
    }
  }

  /** `n` different numbers below `n`, once sorted, are 0, 1, ..., n - 1. */
  lemma {:induction false} DenseNumbers(s: seq<int>)
    requires Distinct(s) && forall i, j :: 0 <= i < j < |s| ==> s[i] <= s[j]
    requires forall i :: 0 <= i < |s| ==> 0 <= s[i] < |s|
    ensures forall i :: 0 <= i < |s| ==> s[i] == i
  {
    assert forall i, j :: 0 <= i < j < |s| ==> s[i] != s[j] && s[i] < s[j];
    forall i | 0 <= i < |s| ensures s[i] == i {
      DenseFrom(s, i);
      DenseFrom(s, |s| - 1 - i);
    }
  }

  function Range(n: int): (r: set<int>)
    ensures forall i :: i in r <==> 0 <= i < n
  {
    if n <= 0 then {} else Range(n - 1) + {n - 1}
  }

  lemma {:induction false} RangeSize(n: nat)
    ensures |Range(n)| == n
  {
    if n > 0 {
      RangeSize(n - 1);
      var below := Range(n - 1);
      assert n - 1 !in below && Range(n) == below + {n - 1};
    }
  }

  /** `n` numbers among which are 0, 1, ..., n - 1 are just these, each once. */
  lemma {:induction false} CoverNumbers(s: seq<int>)
    requires forall t :: 0 <= t < |s| ==> t in s
    ensures Distinct(s) && forall i :: 0 <= i < |s| ==> 0 <= s[i] < |s|
  {
    var below, members := Range(|s|), set x | x in s;
    RangeSize(|s|);
    DistinctBySize(s);
    SizeOfSubset(below, members);
    SubsetOfSameSize(below, members);
    assert forall i :: 0 <= i < |s| ==> s[i] in members;
  }

  /** Being 0, 1, ..., n - 1 in some order is being n numbers among which these are. */
  lemma {:induction false} NumbersExactly(s: seq<int>)
    ensures Distinct(s) && Members(s) == Range(|s|) <==> forall t :: 0 <= t < |s| ==> t in s
  {
    if Members(s) == Range(|s|) {
      forall t | 0 <= t < |s| ensures t in s { assert t in Members(s); }
    }
    if forall t :: 0 <= t < |s| ==> t in s {
      CoverNumbers(s);
      assert Members(s) == Range(|s|);
    }
  }

  /** Reports of different partitions, sorted by partition, come at their own index. */
  lemma {:induction false} PartitionsAreIndices<R>(partitionOf: R -> int, sorted: seq<R>)
    requires forall i, j :: 0 <= i < j < |sorted| ==> partitionOf(sorted[i]) <= partitionOf(sorted[j])
    requires Distinct(Map(partitionOf, sorted))
    requires forall i :: 0 <= i < |sorted| ==> 0 <= partitionOf(sorted[i]) < |sorted|
    ensures forall i :: 0 <= i < |sorted| ==> partitionOf(sorted[i]) == i
  {
    var s := Map(partitionOf, sorted);
    DenseNumbers(s);
    assert forall i :: 0 <= i < |sorted| ==> s[i] == partitionOf(sorted[i]);
  }

  /** Reports sorted by partition are all acceptable exactly when each partition has an acceptable one. */
  lemma {:induction false} EachPartitionAccepted<R>(
      accept: (int, R) -> bool, partitionOf: R -> int, reports: seq<R>, sorted: seq<R>)
    requires multiset(sorted) == multiset(reports)
    requires forall i, j :: 0 <= i < j < |sorted| ==> partitionOf(sorted[i]) <= partitionOf(sorted[j])
    requires forall p, r :: r in reports && accept(p, r) ==> partitionOf(r) == p
    ensures AllAccepted(accept, sorted) <==> forall p :: 0 <= p < |reports| ==> HasReport(accept, p, reports)
  {
    SameMembers(sorted, reports);
    if AllAccepted(accept, sorted) {
      forall p | 0 <= p < |reports| ensures HasReport(accept, p, reports) {
        assert sorted[p] in reports && accept(p, sorted[p]);
      }
    }
    if forall p :: 0 <= p < |reports| ==> HasReport(accept, p, reports) {
      OwnPlaces(accept, partitionOf, reports, sorted);
      forall i | 0 <= i < |sorted| ensures accept(i, sorted[i]) {
        assert HasReport(accept, i, reports);
        var r :| r in reports && accept(i, r);
        var k :| 0 <= k < |sorted| && sorted[k] == r;
        assert k == i;
      }
    }
  }

  ghost predicate HasReport<R>(accept: (int, R) -> bool, p: int, reports: seq<R>) {
    exists r :: r in reports && accept(p, r)
  }

  lemma {:induction false} OwnPlaces<R>(
      accept: (int, R) -> bool, partitionOf: R -> int, reports: seq<R>, sorted: seq<R>)
    requires multiset(sorted) == multiset(reports)
    requires forall i, j :: 0 <= i < j < |sorted| ==> partitionOf(sorted[i]) <= partitionOf(sorted[j])
    requires forall p, r :: r in reports && accept(p, r) ==> partitionOf(r) == p
    requires forall p :: 0 <= p < |reports| ==> HasReport(accept, p, reports)
    ensures |sorted| == |reports| && forall i :: 0 <= i < |sorted| ==> partitionOf(sorted[i]) == i
  {
    SameMembers(sorted, reports);
    var s := Map(partitionOf, sorted);
    assert forall i :: 0 <= i < |sorted| ==> s[i] == partitionOf(sorted[i]);
    forall p | 0 <= p < |s| ensures p in s {
      assert HasReport(accept, p, reports);
      var r :| r in reports && accept(p, r);
      var k :| 0 <= k < |sorted| && sorted[k] == r;
      assert s[k] == p;
    }
    CoverNumbers(s);
    PartitionsAreIndices(partitionOf, sorted);
  }

  // ----- what a plan means by an identifier

  /** A dictionary filled in plan order keeps the last entry of each identifier. */
  ghost predicate Planned<C>(idOf: C -> string, cs: seq<C>, c: C) {
    exists i :: 0 <= i < |cs| && cs[i] == c && forall j :: i < j < |cs| ==> idOf(cs[j]) != idOf(c)
  }

  lemma {:induction false} PlannedSnoc<C>(idOf: C -> string, cs: seq<C>, last: C, c: C)
    ensures Planned(idOf, cs + [last], c) <==> c == last || (idOf(last) != idOf(c) && Planned(idOf, cs, c))
  {
    var all := cs + [last];
    if c == last { assert all[|cs|] == c; }
    if Planned(idOf, cs, c) && idOf(last) != idOf(c) {
      var i :| 0 <= i < |cs| && cs[i] == c && forall j :: i < j < |cs| ==> idOf(cs[j]) != idOf(c);
      assert all[i] == c && forall j :: i < j < |all| ==> idOf(all[j]) != idOf(c);
    }
    if Planned(idOf, all, c) && c != last {
      var i :| 0 <= i < |all| && all[i] == c && forall j :: i < j < |all| ==> idOf(all[j]) != idOf(c);
      assert i < |cs| && all[|cs|] == last;
      assert cs[i] == c && forall j :: i < j < |cs| ==> idOf(cs[j]) != idOf(c) by {
        assert forall j :: 0 <= j < |cs| ==> all[j] == cs[j];
      }
    }
  }
}
