/** The merger's integer arithmetic: nearest-rank percentiles, the integer root by doubling
    and bisection, and the floor geometric mean of speed ratios. */
module IntegerStatistics {
  import opened Options
  import opened Sorting
  import opened Sequences

  // ----- powers

  function Pow(b: nat, e: nat): nat {
    if e == 0 then 1 else b * Pow(b, e - 1)
  }

  lemma {:induction false} PowMonotone(a: nat, b: nat, e: nat)
    requires a <= b
    ensures Pow(a, e) <= Pow(b, e)
  {
    if e > 0 {
      PowMonotone(a, b, e - 1);
      MulBoth(a, Pow(a, e - 1), b, Pow(b, e - 1));
    }
  }

  lemma {:induction false} PowAtLeast(b: nat, e: nat)
    requires e >= 1
    ensures Pow(b, e) >= b
  {
    if e > 1 && b > 0 {
      PowAtLeast(b, e - 1);
      assert b * Pow(b, e - 1) >= b * 1;
    }
  }

  // ----- integer_nth_root

  /** `r` is the integer `degree`-th root of `value`. */
  ghost predicate IsRoot(r: nat, value: nat, degree: nat) {
    Pow(r, degree) <= value < Pow(r + 1, degree)
  }

  lemma {:induction false} RootUnique(r: nat, s: nat, value: nat, degree: nat)
    requires IsRoot(r, value, degree) && IsRoot(s, value, degree)
    ensures r == s
  {
    if r < s { PowMonotone(r + 1, s, degree); }
    if s < r { PowMonotone(s + 1, r, degree); }
  }

  method IntegerNthRoot(value: int, degree: int) returns (root: Option<nat>)
    ensures root.None? <==> value < 0 || degree < 1
    ensures root.Some? ==> IsRoot(root.value, value, degree)
  {
    if value < 0 || degree < 1 { return None; }
    var low: nat, high: nat := 0, 1;
    while Pow(high, degree) <= value
      invariant high >= 1
      decreases value - high
    {
      PowAtLeast(high, degree);
      high := high * 2;
    }
    low, high := Bisect(value, degree, high);
    return Some(low);
  }

  /** The second loop: halve the bracket until it has width one. */
  method Bisect(value: nat, degree: nat, top: nat) returns (low: nat, high: nat)
    requires degree >= 1 && top >= 1 && value < Pow(top, degree)
    ensures high == low + 1
    ensures Pow(low, degree) <= value < Pow(high, degree)
  {
    low, high := 0, top;
    while low + 1 < high
      invariant low < high
      invariant Pow(low, degree) <= value < Pow(high, degree)
      decreases high - low
    {
      var middle := (low + high) / 2;
      assert low < middle < high;
      if Pow(middle, degree) <= value {
        low := middle;
      } else {
        high := middle;
      }
    }
  }

  // ----- the geometric mean of speed ratios

  /** One compared scenario: the two median durations. */
  datatype Pair = Pair(jena: nat, ngkg: nat)

  function Numerator(pairs: seq<Pair>): nat {
    if pairs == [] then 1 else pairs[0].jena * 1000 * Numerator(pairs[1..])
  }

  function Denominator(pairs: seq<Pair>): nat {
    if pairs == [] then 1 else pairs[0].ngkg * Denominator(pairs[1..])
  }

  predicate AllTimed(pairs: seq<Pair>) {
    forall i :: 0 <= i < |pairs| ==> pairs[i].ngkg > 0
  }

  function SpeedupMilliX(p: Pair): nat
    requires p.ngkg > 0
  {
    p.jena * 1000 / p.ngkg
  }

  lemma {:induction false} DenominatorPositive(pairs: seq<Pair>)
    requires AllTimed(pairs)
    ensures Denominator(pairs) > 0
  {
    if pairs != [] {
      DenominatorPositive(pairs[1..]);
    }
  }

  // ----- what the merger computes, whatever the signs

  /** Python's `a // b`. */
  function FloorDiv(a: int, b: int): int
    requires b != 0
  {
    if b > 0 then a / b else (-a) / (-b)
  }

  /** Two medians as the merger finds them in the reports. */
  datatype Ratio = Ratio(jena: int, ngkg: int)

  function JenaProduct(ratios: seq<Ratio>): int {
    if ratios == [] then 1 else ratios[0].jena * 1000 * JenaProduct(ratios[1..])
  }

  function NgkgProduct(ratios: seq<Ratio>): int {
    if ratios == [] then 1 else ratios[0].ngkg * NgkgProduct(ratios[1..])
  }

  predicate NoZero(ratios: seq<Ratio>) {
    forall i :: 0 <= i < |ratios| ==> ratios[i].ngkg != 0
  }

  lemma {:induction false} ProductNonZero(ratios: seq<Ratio>)
    requires NoZero(ratios)
    ensures NgkgProduct(ratios) != 0
  {
    if ratios != [] {
      assert forall i :: 0 <= i < |ratios[1..]| ==> ratios[1..][i] == ratios[i+1];
      ProductNonZero(ratios[1..]);
      NonZero(ratios[0].ngkg, NgkgProduct(ratios[1..]));
    }
  }

  lemma {:induction false} NonZero(a: int, b: int)
    requires a != 0 && b != 0
    ensures a * b != 0
  {
  }

  method Products(ratios: seq<Ratio>) returns (numerator: int, denominator: int)
    ensures numerator == JenaProduct(ratios) && denominator == NgkgProduct(ratios)
  {
    numerator, denominator := 1, 1;
    assert ratios[0..] == ratios;
    for i := 0 to |ratios|
      invariant JenaProduct(ratios) == numerator * JenaProduct(ratios[i..])
      invariant NgkgProduct(ratios) == denominator * NgkgProduct(ratios[i..])
    {
      ProductStep(numerator, denominator, ratios, i);
      numerator, denominator := numerator * (ratios[i].jena * 1000), denominator * ratios[i].ngkg;
    }
    assert ratios[|ratios|..] == [];
  }

  /** `integer_nth_root(numerator // denominator, len(speedups))`, which a negative quotient makes raise. */
  ghost predicate IsRatioRoot(r: nat, ratios: seq<Ratio>) {
    && NgkgProduct(ratios) != 0
    && var quotient := FloorDiv(JenaProduct(ratios), NgkgProduct(ratios));
       quotient >= 0 && IsRoot(r, quotient, |ratios|)
  }

  method GeometricSpeedup(ratios: seq<Ratio>) returns (r: Option<nat>)
    requires ratios != [] && NoZero(ratios)
    ensures r.Some? ==> IsRatioRoot(r.value, ratios)
    ensures r.None? ==> forall x: nat :: !IsRatioRoot(x, ratios)
  {
    var numerator, denominator := Products(ratios);
    ProductNonZero(ratios);
    r := IntegerNthRoot(FloorDiv(numerator, denominator), |ratios|);
  }

  /** The pairs behind positive medians. */
  function PairOf(x: Ratio): Pair {
    Pair(if x.jena < 0 then 0 else x.jena, if x.ngkg < 0 then 0 else x.ngkg)
  }

  predicate Positive(ratios: seq<Ratio>) {
    forall i :: 0 <= i < |ratios| ==> ratios[i].jena > 0 && ratios[i].ngkg > 0
  }

  lemma {:induction false} PositiveProducts(ratios: seq<Ratio>)
    requires Positive(ratios)
    ensures JenaProduct(ratios) == Numerator(Map(PairOf, ratios))
    ensures NgkgProduct(ratios) == Denominator(Map(PairOf, ratios))
  {
    if ratios != [] {
      assert forall i :: 0 <= i < |ratios[1..]| ==> ratios[1..][i] == ratios[i+1];
      PositiveProducts(ratios[1..]);
      assert Map(PairOf, ratios)[1..] == Map(PairOf, ratios[1..]);
      assert Map(PairOf, ratios)[0] == PairOf(ratios[0]);
    }
  }

  /** For positive medians the root is the geometric mean of the speed ratios. */
  lemma {:induction false} RatioRootIsGeometricMean(r: nat, ratios: seq<Ratio>)
    requires ratios != [] && Positive(ratios) && IsRatioRoot(r, ratios)
    ensures AllTimed(Map(PairOf, ratios)) && IsGeometricMean(r, Map(PairOf, ratios))
  {
    var pairs := Map(PairOf, ratios);
    forall i | 0 <= i < |pairs| ensures pairs[i].ngkg > 0 {
      assert pairs[i] == PairOf(ratios[i]);
    }
    PositiveProducts(ratios);
    DenominatorPositive(pairs);
    RootOfQuotient(r, Numerator(pairs), Denominator(pairs), |pairs|);
  }

  lemma {:induction false} ProductStep(n: int, d: int, ratios: seq<Ratio>, i: nat)
    requires i < |ratios|
    ensures n * JenaProduct(ratios[i..]) == n * (ratios[i].jena * 1000) * JenaProduct(ratios[i+1..])
    ensures d * NgkgProduct(ratios[i..]) == d * ratios[i].ngkg * NgkgProduct(ratios[i+1..])
  {
    assert ratios[i..][1..] == ratios[i+1..];
    var a, b := ratios[i].jena * 1000, JenaProduct(ratios[i+1..]);
    assert n * (a * b) == n * a * b;
    var c, e := ratios[i].ngkg, NgkgProduct(ratios[i+1..]);
    assert d * (c * e) == d * c * e;
  }

  /** The greatest `r` with `r^n * prod(ngkg) <= prod(1000 * jena)`. */
  ghost predicate IsGeometricMean(r: nat, pairs: seq<Pair>) {
    && Pow(r, |pairs|) * Denominator(pairs) <= Numerator(pairs)
    && Numerator(pairs) < Pow(r + 1, |pairs|) * Denominator(pairs)
  }

  lemma {:induction false} QuotientBound(x: nat, n: nat, d: nat)
    requires d > 0
    ensures x <= n / d <==> x * d <= n
  {
    var q := n / d;
    assert n == q * d + n % d && 0 <= n % d < d;
    if x <= q { assert x * d <= q * d; }
    if x > q { assert x * d >= (q + 1) * d == q * d + d; }
  }

  lemma {:induction false} RootOfQuotient(r: nat, n: nat, d: nat, e: nat)
    requires d > 0 && IsRoot(r, n / d, e)
    ensures Pow(r, e) * d <= n < Pow(r + 1, e) * d
  {
    QuotientBound(Pow(r, e), n, d);
    QuotientBound(Pow(r + 1, e), n, d);
  }

  lemma {:induction false} GeometricMeanUnique(r: nat, s: nat, pairs: seq<Pair>)
    requires IsGeometricMean(r, pairs) && IsGeometricMean(s, pairs) && AllTimed(pairs)
    ensures r == s
  {
    DenominatorPositive(pairs);
    if r < s {
      PowMonotone(r + 1, s, |pairs|);
      MulMonotone(Pow(r + 1, |pairs|), Pow(s, |pairs|), Denominator(pairs));
    }
    if s < r {
      PowMonotone(s + 1, r, |pairs|);
      MulMonotone(Pow(s + 1, |pairs|), Pow(r, |pairs|), Denominator(pairs));
    }
  }

  lemma {:induction false} MulMonotone(a: nat, b: nat, c: nat)
    requires a <= b
    ensures a * c <= b * c
  {
  }

  lemma {:induction false} MulBoth(a: nat, b: nat, c: nat, d: nat)
    requires a <= c && b <= d
    ensures a * b <= c * d
  {
    MulMonotone(a, c, b);
    assert c * b <= c * d;
  }

  /** A rate every scenario reaches is reached by the product. */
  lemma {:induction false} LowerProduct(x: nat, pairs: seq<Pair>)
    requires forall i :: 0 <= i < |pairs| ==> x * pairs[i].ngkg <= pairs[i].jena * 1000
    ensures Pow(x, |pairs|) * Denominator(pairs) <= Numerator(pairs)
  {
    if pairs != [] {
      var rest, h := pairs[1..], pairs[0];
      LowerProduct(x, rest);
      MulBoth(x * h.ngkg, Pow(x, |rest|) * Denominator(rest), h.jena * 1000, Numerator(rest));
      Interchange(x, h.ngkg, Pow(x, |rest|), Denominator(rest));
    }
  }

  /** A rate no scenario reaches is not reached by the product. */
  lemma {:induction false} UpperProduct(x: nat, pairs: seq<Pair>)
    requires AllTimed(pairs)
    requires forall i :: 0 <= i < |pairs| ==> pairs[i].jena * 1000 + 1 <= x * pairs[i].ngkg
    ensures Numerator(pairs) <= Pow(x, |pairs|) * Denominator(pairs)
    ensures pairs != [] ==> Numerator(pairs) < Pow(x, |pairs|) * Denominator(pairs)
  {
    if pairs != [] {
      var rest, h := pairs[1..], pairs[0];
      UpperProduct(x, rest);
      var a, b := h.jena * 1000, Numerator(rest);
      var c, d := x * h.ngkg, Pow(x, |rest|) * Denominator(rest);
      DenominatorPositive(rest);
      PowPositive(x, |rest|, h.ngkg, a);
      assert d >= 1 by { MulBoth(1, 1, Pow(x, |rest|), Denominator(rest)); }
      MulBoth(a + 1, b, c, d);
      MulBoth(a + 1, d, c, d);
      StrictProduct(a, b, c, d);
      Interchange(x, h.ngkg, Pow(x, |rest|), Denominator(rest));
    }
  }

  lemma {:induction false} StrictProduct(a: nat, b: nat, c: nat, d: nat)
    requires a + 1 <= c && b <= d && d >= 1
    ensures a * b < c * d
  {
    MulBoth(a, b, a, d);
    MulBoth(a + 1, d, c, d);
    assert (a + 1) * d == a * d + d;
  }

  lemma {:induction false} PowPositive(x: nat, e: nat, k: nat, a: nat)
    requires a + 1 <= x * k
    ensures Pow(x, e) >= 1
  {
    assert x >= 1;
    if e > 0 {
      PowPositive(x, e - 1, k, a);
      MulBoth(1, 1, x, Pow(x, e - 1));
    }
  }

  lemma {:induction false} Interchange(x: nat, n: nat, p: nat, d: nat)
    ensures (x * n) * (p * d) == (x * p) * (n * d)
  {
    assert (x * n) * (p * d) == x * (n * (p * d));
    assert n * (p * d) == p * (n * d);
    assert (x * p) * (n * d) == x * (p * (n * d));
  }

  /** The mean lies between the slowest and the fastest reported speedup. */
  lemma {:induction false} GeometricMeanBetween(r: nat, pairs: seq<Pair>, lo: nat, hi: nat)
    requires pairs != [] && AllTimed(pairs) && IsGeometricMean(r, pairs)
    requires forall i :: 0 <= i < |pairs| ==> lo <= SpeedupMilliX(pairs[i]) <= hi
    ensures lo <= r <= hi
  {
    forall i | 0 <= i < |pairs|
      ensures lo * pairs[i].ngkg <= pairs[i].jena * 1000
      ensures pairs[i].jena * 1000 + 1 <= (hi + 1) * pairs[i].ngkg
    {
      QuotientBound(lo, pairs[i].jena * 1000, pairs[i].ngkg);
      QuotientBound(hi + 1, pairs[i].jena * 1000, pairs[i].ngkg);
    }
    LowerProduct(lo, pairs);
    UpperProduct(hi + 1, pairs);
    DenominatorPositive(pairs);
    if r < lo {
      PowMonotone(r + 1, lo, |pairs|);
      MulMonotone(Pow(r + 1, |pairs|), Pow(lo, |pairs|), Denominator(pairs));
    }
    if r > hi {
      PowMonotone(hi + 1, r, |pairs|);
      MulMonotone(Pow(hi + 1, |pairs|), Pow(r, |pairs|), Denominator(pairs));
    }
  }

  lemma {:induction false} ProductsWithout(pairs: seq<Pair>, k: nat)
    requires k < |pairs|
    ensures Numerator(pairs) == pairs[k].jena * 1000 * Numerator(Without(pairs, k))
    ensures Denominator(pairs) == pairs[k].ngkg * Denominator(Without(pairs, k))
  {
    if k == 0 {
      assert Without(pairs, 0) == pairs[1..];
    } else {
      var rest := pairs[1..];
      ProductsWithout(rest, k - 1);
      assert Without(pairs, k) == [pairs[0]] + Without(rest, k - 1);
      assert Without(pairs, k)[1..] == Without(rest, k - 1);
      Swap(pairs[0].jena * 1000, pairs[k].jena * 1000, Numerator(Without(rest, k - 1)));
      Swap(pairs[0].ngkg, pairs[k].ngkg, Denominator(Without(rest, k - 1)));
    }
  }

  lemma {:induction false} Swap(a: nat, b: nat, c: nat)
    ensures a * (b * c) == b * (a * c)
  {
    assert a * (b * c) == (a * b) * c;
    assert b * (a * c) == (b * a) * c;
  }

  /** Neither product depends on the order of the scenarios, so neither does the mean. */
  lemma {:induction false} ProductsForgetOrder(a: seq<Pair>, b: seq<Pair>)
    requires multiset(a) == multiset(b)
    ensures Numerator(a) == Numerator(b) && Denominator(a) == Denominator(b) && |a| == |b|
  {
    assert |multiset(a)| == |a| && |multiset(b)| == |b|;
    if a != [] {
      var x := a[0];
      assert x in multiset(b);
      var k :| 0 <= k < |b| && b[k] == x;
      BagWithout(a, 0);
      BagWithout(b, k);
      ProductsForgetOrder(Without(a, 0), Without(b, k));
      ProductsWithout(a, 0);
      ProductsWithout(b, k);
    }
  }

  lemma {:induction false} GeometricMeanForgetsOrder(r: nat, s: nat, a: seq<Pair>, b: seq<Pair>)
    requires AllTimed(a) && multiset(a) == multiset(b)
    requires IsGeometricMean(r, a) && IsGeometricMean(s, b)
    ensures r == s
  {
    ProductsForgetOrder(a, b);
    GeometricMeanUnique(r, s, a);
  }

  // ----- nearest-rank percentiles

  predicate IntLe(a: int, b: int) { a <= b }

  function Sorted(values: seq<int>): (r: seq<int>)
    ensures multiset(r) == multiset(values) && SortedBy(r, IntLe) && |r| == |values|
  {
    var r := SortBy(values, IntLe);
    SameMembers(r, values);
    r
  }

  /** `math.ceil(n * percentile / 100)`, taken exactly. */
  function Rank(n: nat, percentile: nat): nat {
    (n * percentile + 99) / 100
  }

  /** `nearest`: an empty list and a rank past the end raise; a zero rank indexes the last
      element, as Python's `values[-1]` does. */
  function Nearest(values: seq<int>, percentile: nat): Option<int> {
    var rank := Rank(|values|, percentile);
    if values == [] || rank > |values| then None
    else if rank == 0 then Some(Sorted(values)[|values| - 1])
    else Some(Sorted(values)[rank - 1])
  }

  function Count(values: seq<int>, p: int -> bool): nat {
    if values == [] then 0 else (if p(values[0]) then 1 else 0) + Count(values[1..], p)
  }

  function AtMost(x: int): int -> bool { v => v <= x }
  function Below(x: int): int -> bool { v => v < x }

  /** `x` is a value with at least `rank` values not above it and fewer strictly below it. */
  ghost predicate OrderStatistic(x: int, values: seq<int>, rank: nat) {
    x in values && Count(values, Below(x)) < rank <= Count(values, AtMost(x))
  }

  lemma {:induction false} CountSplit(s: seq<int>, t: seq<int>, p: int -> bool)
    ensures Count(s + t, p) == Count(s, p) + Count(t, p)
  {
    if s == [] {
      assert s + t == t;
    } else {
      assert (s + t)[1..] == s[1..] + t;
      CountSplit(s[1..], t, p);
    }
  }

  lemma {:induction false} CountWithout(s: seq<int>, k: nat, p: int -> bool)
    requires k < |s|
    ensures Count(s, p) == Count(Without(s, k), p) + if p(s[k]) then 1 else 0
  {
    assert s == s[..k] + s[k..] && s[k..][1..] == s[k+1..];
    CountSplit(s[..k], s[k..], p);
    CountSplit(s[..k], s[k+1..], p);
  }

  lemma {:induction false} CountForgetsOrder(a: seq<int>, b: seq<int>, p: int -> bool)
    requires multiset(a) == multiset(b)
    ensures Count(a, p) == Count(b, p)
  {
    assert |multiset(a)| == |a| && |multiset(b)| == |b|;
    if a != [] {
      var x := a[0];
      assert x in multiset(b);
      var k :| 0 <= k < |b| && b[k] == x;
      BagWithout(a, 0);
      BagWithout(b, k);
      CountForgetsOrder(Without(a, 0), Without(b, k), p);
      CountWithout(a, 0, p);
      CountWithout(b, k, p);
    }
  }

  lemma {:induction false} CountBounds(s: seq<int>, p: int -> bool)
    ensures Count(s, p) <= |s|
    ensures (forall i :: 0 <= i < |s| ==> p(s[i])) ==> Count(s, p) == |s|
    ensures (forall i :: 0 <= i < |s| ==> !p(s[i])) ==> Count(s, p) == 0
  {
    if s != [] {
      CountBounds(s[1..], p);
      if forall i :: 0 <= i < |s| ==> p(s[i]) { assert forall i :: 0 <= i < |s[1..]| ==> p(s[1..][i]); }
      if forall i :: 0 <= i < |s| ==> !p(s[i]) { assert forall i :: 0 <= i < |s[1..]| ==> !p(s[1..][i]); }
    }
  }

  lemma {:induction false} CountWeaken(s: seq<int>, p: int -> bool, q: int -> bool)
    requires forall v :: p(v) ==> q(v)
    ensures Count(s, p) <= Count(s, q)
  {
    if s != [] {
      CountWeaken(s[1..], p, q);
    }
  }

  lemma {:induction false} CountPrefix(s: seq<int>, k: nat, p: int -> bool)
    requires k <= |s| && forall i :: 0 <= i < k ==> p(s[i])
    ensures Count(s, p) >= k
  {
    assert s == s[..k] + s[k..];
    CountSplit(s[..k], s[k..], p);
    CountBounds(s[..k], p);
  }

  lemma {:induction false} CountSuffix(s: seq<int>, k: nat, p: int -> bool)
    requires k <= |s| && forall i :: k <= i < |s| ==> !p(s[i])
    ensures Count(s, p) <= k
  {
    assert s == s[..k] + s[k..];
    CountSplit(s[..k], s[k..], p);
    CountBounds(s[..k], p);
    CountBounds(s[k..], p);
  }

  lemma {:induction false} SortedIndexIsOrderStatistic(s: seq<int>, rank: nat)
    requires SortedBy(s, IntLe) && 1 <= rank <= |s|
    ensures OrderStatistic(s[rank-1], s, rank)
  {
    var x := s[rank-1];
    forall i | 0 <= i < |s| ensures i < rank ==> s[i] <= x ensures i >= rank - 1 ==> x <= s[i] {
      assert i < rank - 1 ==> IntLe(s[i], x);
      assert i > rank - 1 ==> IntLe(x, s[i]);
    }
    CountPrefix(s, rank, AtMost(x));
    CountSuffix(s, rank - 1, Below(x));
  }

  /** Being an order statistic leaves no choice of value. */
  lemma {:induction false} OrderStatisticUnique(x: int, y: int, values: seq<int>, rank: nat)
    requires OrderStatistic(x, values, rank) && OrderStatistic(y, values, rank)
    ensures x == y
  {
    if x < y { CountWeaken(values, AtMost(x), Below(y)); }
    if y < x { CountWeaken(values, AtMost(y), Below(x)); }
  }

  lemma {:induction false} RankInRange(n: nat, percentile: nat)
    requires n >= 1 && 1 <= percentile <= 100
    ensures 1 <= Rank(n, percentile) <= n
    ensures 100 * (Rank(n, percentile) - 1) < n * percentile <= 100 * Rank(n, percentile)
  {
    assert n * percentile >= 1 by { MulBoth(1, 1, n, percentile); }
    assert n * percentile <= n * 100 by { MulBoth(n, percentile, n, 100); }
  }

  /** `nearest` returns the order statistic of its rank. */
  lemma {:induction false} NearestIsOrderStatistic(values: seq<int>, percentile: nat)
    requires values != [] && 1 <= percentile <= 100
    ensures Nearest(values, percentile).Some?
    ensures OrderStatistic(Nearest(values, percentile).value, values, Rank(|values|, percentile))
  {
    var rank, s := Rank(|values|, percentile), Sorted(values);
    RankInRange(|values|, percentile);
    SortedIndexIsOrderStatistic(s, rank);
    var x := s[rank-1];
    CountForgetsOrder(s, values, AtMost(x));
    CountForgetsOrder(s, values, Below(x));
    SameMembers(s, values);
  }

  lemma {:induction false} SortedForgetsOrder(a: seq<int>, b: seq<int>)
    requires multiset(a) == multiset(b)
    ensures Sorted(a) == Sorted(b)
  {
    var s, t := Sorted(a), Sorted(b);
    SortedUnique(s, t, IntLe);
  }

  lemma {:induction false} NearestForgetsOrder(a: seq<int>, b: seq<int>, percentile: nat)
    requires multiset(a) == multiset(b)
    ensures Nearest(a, percentile) == Nearest(b, percentile)
  {
    SameMembers(a, b);
    SortedForgetsOrder(a, b);
  }

  /** Percentiles are ordered as their ranks are. */
  lemma {:induction false} NearestMonotone(values: seq<int>, p: nat, q: nat)
    requires values != [] && 1 <= p <= q <= 100
    ensures Nearest(values, p).Some? && Nearest(values, q).Some?
    ensures Nearest(values, p).value <= Nearest(values, q).value
  {
    RankInRange(|values|, p);
    RankInRange(|values|, q);
    MulBoth(|values|, p, |values|, q);
    var s, i, j := Sorted(values), Rank(|values|, p) - 1, Rank(|values|, q) - 1;
    assert i <= j;
    assert i < j ==> IntLe(s[i], s[j]);
  }

  /** At percentile 0 the negative index turns the minimum one would expect into the maximum. */
  lemma {:induction false} ZeroPercentileIsTheMaximum(values: seq<int>)
    requires values != []
    ensures Nearest(values, 0).Some? && Nearest(values, 0).value in values
    ensures forall v :: v in values ==> v <= Nearest(values, 0).value
  {
    var s := Sorted(values);
    SameMembers(s, values);
    forall v | v in values ensures v <= s[|s|-1] {
      var i :| 0 <= i < |s| && s[i] == v;
      assert i < |s| - 1 ==> IntLe(s[i], s[|s|-1]);
    }
  }
}
