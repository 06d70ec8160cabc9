/** Largest-remainder apportionment of an integer total by real weights. */
module Apportionment {
  import opened RealMath
  import opened SortedInts

  // ----- integer sums -----

  function IntSum(s: seq<int>): int {
    if s == [] then 0 else s[0] + IntSum(s[1..])
  }

  lemma {:induction false} IntSumUpdate(s: seq<int>, i: nat, x: int)
    requires i < |s|
    ensures IntSum(s[i := x]) == IntSum(s) - s[i] + x
  {
    if i == 0 {
      assert s[0 := x][1..] == s[1..];
    } else {
      assert s[i := x][1..] == s[1..][i - 1 := x];
      IntSumUpdate(s[1..], i - 1, x);
    }
  }

  // ----- quotas -----

  predicate ValidWeights(weights: seq<real>) {
    weights != [] && forall i :: 0 <= i < |weights| ==> weights[i] >= 0.0
  }

  /** The part of the total that a weight is entitled to; without any weight everyone gets the same. */
  function Quota(total: nat, weight: real, sum: real, n: nat): real
    requires n > 0
  {
    Mul(if sum == 0.0 then 1.0 / n as real else weight / sum, total as real)
  }

  function Quotas(total: nat, weights: seq<real>): (q: seq<real>)
    requires weights != []
    ensures |q| == |weights|
    ensures forall i :: 0 <= i < |q| ==> q[i] == Quota(total, weights[i], Sum(weights), |weights|)
  {
    var sum := Sum(weights);
    seq(|weights|, i requires 0 <= i < |weights| => Quota(total, weights[i], sum, |weights|))
  }

  /** The quota is the weight's share of the total, and an even share if the weights add up to zero. */
  lemma QuotaMeans(total: nat, weights: seq<real>, i: nat)
    requires i < |weights|
    ensures Sum(weights) != 0.0 ==>
      Mul(Sum(weights), Quotas(total, weights)[i]) == Mul(weights[i], total as real)
    ensures Sum(weights) == 0.0 ==> Mul(|weights| as real, Quotas(total, weights)[i]) == total as real
  {
    var sum, t := Sum(weights), total as real;
    if sum != 0.0 {
      ShareOfTotal(sum, weights[i], t);
    } else {
      ShareOfTotal(|weights| as real, 1.0, t);
    }
  }

  lemma ShareOfTotal(sum: real, w: real, t: real)
    requires sum != 0.0
    ensures Mul(sum, Mul(w / sum, t)) == Mul(w, t)
  {
    var s := w / sum;
    assert sum * s == w;
    MulAssoc(sum, s, t);
  }

  lemma {:induction false} SumOfQuotas(total: nat, weights: seq<real>, q: seq<real>, sum: real, n: nat)
    requires n > 0 && |q| == |weights|
    requires forall i :: 0 <= i < |q| ==> q[i] == Quota(total, weights[i], sum, n)
    ensures Sum(q) == Mul(if sum == 0.0 then Mul(|weights| as real, 1.0 / n as real) else Sum(weights) / sum,
                          total as real)
  {
    if weights == [] {
    } else {
      SumOfQuotas(total, weights[1..], q[1..], sum, n);
      var rest := |weights[1..]| as real;
      if sum == 0.0 {
        MulAdd(1.0, rest, 1.0 / n as real);
        MulAdd(1.0 / n as real, Mul(rest, 1.0 / n as real), total as real);
      } else {
        DivideSum(weights[0], Sum(weights[1..]), sum);
        MulAdd(weights[0] / sum, Sum(weights[1..]) / sum, total as real);
      }
    }
  }

  lemma DivideSum(a: real, b: real, c: real)
    requires c != 0.0
    ensures (a + b) / c == a / c + b / c
  {}

  lemma DivideSelf(c: real)
    requires c != 0.0
    ensures c / c == 1.0 && Mul(c, 1.0 / c) == 1.0
  {}

  /** The quotas add up to the total. */
  lemma QuotasSum(total: nat, weights: seq<real>)
    requires weights != []
    ensures Sum(Quotas(total, weights)) == total as real
  {
    var sum, n := Sum(weights), |weights|;
    SumOfQuotas(total, weights, Quotas(total, weights), sum, n);
    DivideSelf(if sum == 0.0 then n as real else sum);
  }

  // ----- floors and fractions -----

  function Floors(q: seq<real>): (f: seq<int>)
    ensures |f| == |q| && forall i :: 0 <= i < |q| ==> f[i] == q[i].Floor
  {
    seq(|q|, i requires 0 <= i < |q| => q[i].Floor)
  }

  function Fraction(x: real): (r: real)
    ensures 0.0 <= r < 1.0
  {
    x - x.Floor as real
  }

  function Fractions(q: seq<real>): (f: seq<real>)
    ensures |f| == |q| && forall i :: 0 <= i < |q| ==> f[i] == Fraction(q[i])
  {
    seq(|q|, i requires 0 <= i < |q| => Fraction(q[i]))
  }

  lemma {:induction false} SplitSum(q: seq<real>)
    ensures Sum(q) == IntSum(Floors(q)) as real + Sum(Fractions(q))
  {
    if q != [] {
      SplitSum(q[1..]);
      assert Floors(q)[1..] == Floors(q[1..]) && Fractions(q)[1..] == Fractions(q[1..]);
    }
  }

  /** How many entries are positive. */
  function Positives(s: seq<real>): (n: nat)
    ensures n <= |s|
  {
    if s == [] then 0 else (if s[0] > 0.0 then 1 else 0) + Positives(s[1..])
  }

  /** Numbers below one add up to at most the number of positive ones. */
  lemma {:induction false} FewerThanPositives(s: seq<real>)
    requires forall i :: 0 <= i < |s| ==> 0.0 <= s[i] < 1.0
    ensures 0.0 <= Sum(s) <= Positives(s) as real && (s != [] ==> Sum(s) < |s| as real)
  {
    if s != [] { FewerThanPositives(s[1..]); }
  }

  // ----- the order of the remainders -----

  /** a comes before b: a larger fraction, or the same fraction and a smaller index. */
  predicate Precedes(keys: seq<real>, a: nat, b: nat)
    requires a < |keys| && b < |keys|
  {
    keys[a] > keys[b] || (keys[a] == keys[b] && a < b)
  }

  ghost predicate Ordered(keys: seq<real>, order: seq<nat>, n: nat) {
    && n <= |keys| && |order| == n
    && (forall i :: 0 <= i < n ==> order[i] < n)
    && (forall k :: 0 <= k < n ==> k in order)
    && forall i, j :: 0 <= i < j < n ==> Precedes(keys, order[i], order[j])
  }

  function Place(keys: seq<real>, order: seq<nat>, k: nat): seq<nat>
    requires k < |keys| && forall i :: 0 <= i < |order| ==> order[i] < |keys|
  {
    if order == [] then [k]
    else if keys[order[0]] >= keys[k] then [order[0]] + Place(keys, order[1..], k)
    else [k] + order
  }

  lemma {:induction false} PlaceOrdered(keys: seq<real>, order: seq<nat>, k: nat)
    requires k < |keys| && forall i :: 0 <= i < |order| ==> order[i] < k
    requires forall i, j :: 0 <= i < j < |order| ==> Precedes(keys, order[i], order[j])
    ensures var r := Place(keys, order, k);
      && |r| == |order| + 1 && (forall x :: x in r <==> x == k || x in order)
      && forall i, j :: 0 <= i < j < |r| ==> r[i] < |keys| && r[j] < |keys| && Precedes(keys, r[i], r[j])
  {
    if order != [] && keys[order[0]] >= keys[k] {
      PlaceOrdered(keys, order[1..], k);
      var r, rest := Place(keys, order, k), Place(keys, order[1..], k);
      assert order == [order[0]] + order[1..];
      forall j | 0 < j < |r| ensures r[j] < |keys| && Precedes(keys, order[0], r[j]) {
        assert r[j] in rest;
        if r[j] != k { var i :| 0 <= i < |order[1..]| && order[1..][i] == r[j]; }
      }
    } else if order != [] {
      forall j | 0 <= j < |order| ensures Precedes(keys, k, order[j]) {
        if j > 0 { assert Precedes(keys, order[0], order[j]); }
      }
    }
  }

  /** np.argsort(-keys, kind="stable") of the first n keys. */
  function ArgSort(keys: seq<real>, n: nat): (order: seq<nat>)
    requires n <= |keys|
    ensures Ordered(keys, order, n)
  {
    if n == 0 then [] else
      var before := ArgSort(keys, n - 1);
      PlaceOrdered(keys, before, n - 1);
      var order := Place(keys, before, n - 1);
      assert forall i :: 0 <= i < |order| ==> order[i] in order;
      order
  }

  lemma OrderedDistinct(keys: seq<real>, order: seq<nat>, n: nat)
    requires Ordered(keys, order, n)
    ensures forall i, j :: 0 <= i < j < n ==> order[i] != order[j]
  {
    forall i, j | 0 <= i < j < n ensures order[i] != order[j] { assert Precedes(keys, order[i], order[j]); }
  }

  // ----- the allocation -----

  /** One more for each of the first k indices in the order. */
  function Bumped(floors: seq<int>, order: seq<nat>, k: nat): (a: seq<int>)
    requires k <= |order| && forall i :: 0 <= i < |order| ==> order[i] < |floors|
    ensures |a| == |floors|
  {
    if k == 0 then floors else
      var before := Bumped(floors, order, k - 1);
      before[order[k - 1] := before[order[k - 1]] + 1]
  }

  lemma {:induction false} BumpedSum(floors: seq<int>, order: seq<nat>, k: nat)
    requires k <= |order| && forall i :: 0 <= i < |order| ==> order[i] < |floors|
    ensures IntSum(Bumped(floors, order, k)) == IntSum(floors) + k
  {
    if k > 0 {
      BumpedSum(floors, order, k - 1);
      var before := Bumped(floors, order, k - 1);
      IntSumUpdate(before, order[k - 1], before[order[k - 1]] + 1);
    }
  }

  lemma {:induction false} BumpedAt(keys: seq<real>, floors: seq<int>, order: seq<nat>, k: nat, i: nat)
    requires Ordered(keys, order, |floors|) && k <= |order| && i < |floors|
    ensures Bumped(floors, order, k)[i] == floors[i] + if i in order[..k] then 1 else 0
  {
    if k > 0 {
      BumpedAt(keys, floors, order, k - 1, i);
      assert order[..k] == order[..k - 1] + [order[k - 1]];
      OrderedDistinct(keys, order, |floors|);
      assert order[k - 1] !in order[..k - 1];
    }
  }

  function Remainder(total: nat, weights: seq<real>): (r: nat)
    requires ValidWeights(weights)
    ensures r < |weights| && r as real == Sum(Fractions(Quotas(total, weights)))
    ensures r <= Positives(Fractions(Quotas(total, weights)))
  {
    var q := Quotas(total, weights);
    QuotasSum(total, weights);
    SplitSum(q);
    FewerThanPositives(Fractions(q));
    total - IntSum(Floors(q))
  }

  function Order(total: nat, weights: seq<real>): (order: seq<nat>)
    requires weights != []
    ensures Ordered(Fractions(Quotas(total, weights)), order, |weights|)
  {
    ArgSort(Fractions(Quotas(total, weights)), |weights|)
  }

  /** _largest_remainder_allocation on valid input. */
  function Allocation(total: nat, weights: seq<real>): (a: seq<int>)
    requires ValidWeights(weights)
    ensures |a| == |weights|
  {
    Bumped(Floors(Quotas(total, weights)), Order(total, weights), Remainder(total, weights))
  }

  method LargestRemainderAllocation(total: int, weights: seq<real>) returns (r: Outcome<seq<int>>)
    ensures r.Ok? <==> total >= 0 && ValidWeights(weights)
    ensures r.Ok? ==> r.value == Allocation(total, weights)
  {
    if total < 0 { return Error("total must be >= 0"); }
    if |weights| == 0 { return Error("weights must be a non-empty one-dimensional array"); }
    if i :| 0 <= i < |weights| && weights[i] < 0.0 { return Error("weights must be finite and non-negative"); }
    hide Quotas, IntSum, ArgSort;
    var exact, floors := Quotas(total, weights), Floors(Quotas(total, weights));
    var allotted := new int[|exact|](i requires 0 <= i < |floors| => floors[i]);
    assert allotted[..] == floors;
    var remainder := total - IntSum(allotted[..]);
    assert remainder == Remainder(total, weights);
    if remainder != 0 {
      var order := Order(total, weights);
      OrderInRange(total, weights);
      RoundUp(allotted, order, remainder);
    }
    return Ok(allotted[..]);
  }

  lemma OrderInRange(total: nat, weights: seq<real>)
    requires weights != []
    ensures var order := Order(total, weights);
            |order| == |weights| && forall i :: 0 <= i < |order| ==> order[i] < |weights|
  {}

  /** allocated[order[:remainder]] += 1. */
  method RoundUp(allotted: array<int>, order: seq<nat>, remainder: nat)
    requires remainder <= |order| && forall i :: 0 <= i < |order| ==> order[i] < allotted.Length
    modifies allotted
    ensures allotted[..] == Bumped(old(allotted[..]), order, remainder)
  {
    for k := 0 to remainder
      invariant allotted[..] == Bumped(old(allotted[..]), order, k)
    {
      allotted[order[k]] := allotted[order[k]] + 1;
    }
  }

  // ----- what it guarantees -----

  lemma Picked(total: nat, weights: seq<real>, i: nat)
    requires ValidWeights(weights) && i < |weights|
    ensures Allocation(total, weights)[i] == Quotas(total, weights)[i].Floor
            + if i in Order(total, weights)[..Remainder(total, weights)] then 1 else 0
  {
    var q := Quotas(total, weights);
    BumpedAt(Fractions(q), Floors(q), Order(total, weights), Remainder(total, weights), i);
  }

  /** The allocation adds up to the total. */
  lemma AllocationSum(total: nat, weights: seq<real>)
    requires ValidWeights(weights)
    ensures IntSum(Allocation(total, weights)) == total
  {
    BumpedSum(Floors(Quotas(total, weights)), Order(total, weights), Remainder(total, weights));
  }

  function Elements(s: seq<nat>): set<nat> { set k | k in s }

  /** There are at most as many positive keys as indices that cover them. */
  lemma PositivesBound(keys: seq<real>, picked: seq<nat>)
    requires forall k :: 0 <= k < |keys| && keys[k] > 0.0 ==> k in picked
    ensures Positives(keys) <= |picked|
  {
    PositiveIndices(keys, |keys|);
    assert keys[..|keys|] == keys;
    SubsetSize((set k | 0 <= k < |keys| && keys[k] > 0.0), Elements(picked));
    ElementsSize(picked);
  }

  lemma {:induction false} PositiveIndices(keys: seq<real>, n: nat)
    requires n <= |keys|
    ensures Positives(keys[..n]) == |set k | 0 <= k < n && keys[k] > 0.0|
  {
    var now := set k | 0 <= k < n && keys[k] > 0.0;
    if n == 0 {
      assert now == {};
    } else {
      PositiveIndices(keys, n - 1);
      var before := set k | 0 <= k < n - 1 && keys[k] > 0.0;
      assert keys[..n] == keys[..n - 1] + [keys[n - 1]];
      PositivesSnoc(keys[..n - 1], keys[n - 1]);
      assert now == if keys[n - 1] > 0.0 then before + {n - 1} else before;
    }
  }

  lemma {:induction false} PositivesSnoc(s: seq<real>, x: real)
    ensures Positives(s + [x]) == Positives(s) + if x > 0.0 then 1 else 0
  {
    if s != [] {
      assert (s + [x])[1..] == s[1..] + [x];
      PositivesSnoc(s[1..], x);
    }
  }

  lemma {:induction false} ElementsSize(s: seq<nat>)
    ensures |Elements(s)| <= |s|
  {
    if s != [] {
      ElementsSize(s[1..]);
      assert s == [s[0]] + s[1..];
      assert Elements(s) == {s[0]} + Elements(s[1..]);
    }
  }

  lemma ComesFirst(keys: seq<real>, order: seq<nat>, j: nat, p: nat)
    requires Ordered(keys, order, |keys|) && j < |order| && p < |order| && Precedes(keys, order[j], order[p])
    ensures j < p
  {}

  /** Only indices with a positive fraction are rounded up. */
  lemma PickedIsPositive(keys: seq<real>, order: seq<nat>, r: nat, i: nat)
    requires Ordered(keys, order, |keys|) && r <= Positives(keys) && i in order[..r]
    ensures i < |keys| && keys[i] > 0.0
  {
    var p :| 0 <= p < r && order[p] == i;
    if keys[i] <= 0.0 {
      forall k | 0 <= k < |keys| && keys[k] > 0.0 ensures k in order[..p] {
        assert k in order;
        var j :| 0 <= j < |order| && order[j] == k;
        ComesFirst(keys, order, j, p);
        assert order[..p][j] == k;
      }
      PositivesBound(keys, order[..p]);
    }
  }

  /** Every share lies between the floor and the ceiling of its quota; in particular an exact quota is met exactly. */
  lemma WithinOne(total: nat, weights: seq<real>, i: nat)
    requires ValidWeights(weights) && i < |weights|
    ensures var a, q := Allocation(total, weights)[i], Quotas(total, weights)[i];
            q.Floor <= a <= q.Floor + 1 && (q == q.Floor as real ==> a == q.Floor)
            && q - 1.0 < a as real < q + 1.0
  {
    Picked(total, weights, i);
    var fractions, order, r := Fractions(Quotas(total, weights)), Order(total, weights), Remainder(total, weights);
    if i in order[..r] { PickedIsPositive(fractions, order, r, i); }
  }

  /** A weight of zero gets nothing as long as some weight is positive. */
  lemma ZeroGetsNothing(total: nat, weights: seq<real>, i: nat)
    requires ValidWeights(weights) && i < |weights| && weights[i] == 0.0 && Sum(weights) > 0.0
    ensures Allocation(total, weights)[i] == 0
  {
    assert Quotas(total, weights)[i] == 0.0 by { ZeroShare(Sum(weights), total); }
    WithinOne(total, weights, i);
  }

  lemma ZeroShare(sum: real, total: nat)
    requires sum > 0.0
    ensures Mul(0.0 / sum, total as real) == 0.0
  {
    assert 0.0 / sum == 0.0;
  }

  lemma QuotaMono(total: nat, v: real, w: real, sum: real, n: nat)
    requires n > 0 && sum >= 0.0 && v <= w
    ensures Quota(total, v, sum, n) <= Quota(total, w, sum, n)
  {
    if sum > 0.0 {
      DivMono(v, w, sum);
      ScaleMono(v / sum, w / sum, total as real);
    }
  }

  lemma ScaleMono(x: real, y: real, k: real)
    requires x <= y && k >= 0.0
    ensures Mul(x, k) <= Mul(y, k)
  {}

  lemma {:induction false} SumNonNegative(s: seq<real>)
    requires forall i :: 0 <= i < |s| ==> s[i] >= 0.0
    ensures Sum(s) >= 0.0 && (Sum(s) == 0.0 ==> forall i :: 0 <= i < |s| ==> s[i] == 0.0)
  {
    if s != [] { SumNonNegative(s[1..]); }
  }

  /** A larger weight never gets less, nor does an equal weight that comes first. */
  lemma LargerGetsNoLess(total: nat, weights: seq<real>, i: nat, j: nat)
    requires ValidWeights(weights) && i < |weights| && j < |weights|
    requires weights[i] > weights[j] || (weights[i] == weights[j] && i < j)
    ensures Allocation(total, weights)[i] >= Allocation(total, weights)[j]
  {
    var q := Quotas(total, weights);
    var order, r := Order(total, weights), Remainder(total, weights);
    SumNonNegative(weights);
    if weights[i] > weights[j] { assert Sum(weights) > 0.0; }
    QuotaMono(total, weights[j], weights[i], Sum(weights), |weights|);
    Picked(total, weights, i);
    Picked(total, weights, j);
    if q[i].Floor == q[j].Floor && j in order[..r] {
      PickedIsPositive(Fractions(q), order, r, j);
      PositiveQuota(total, weights[j], Sum(weights), |weights|);
      if weights[i] > weights[j] { QuotaStrict(total, weights[j], weights[i], Sum(weights), |weights|); }
      PickedBefore(Fractions(q), order, r, i, j);
    }
  }

  lemma PositiveQuota(total: nat, w: real, sum: real, n: nat)
    requires n > 0
    ensures Quota(total, w, sum, n) != 0.0 ==> total > 0
  {
    if total == 0 { assert total as real == 0.0; }
  }

  lemma QuotaStrict(total: nat, v: real, w: real, sum: real, n: nat)
    requires n > 0 && sum > 0.0 && v < w && total > 0
    ensures Quota(total, v, sum, n) < Quota(total, w, sum, n)
  {
    var d := (w - v) / sum;
    assert d > 0.0 && w / sum == v / sum + d;
    MulAdd(v / sum, d, total as real);
    MulPositive(d, total as real, Mul(d, total as real));
  }

  /** Whoever precedes a rounded-up index is rounded up. */
  lemma PickedBefore(keys: seq<real>, order: seq<nat>, r: nat, i: nat, j: nat)
    requires Ordered(keys, order, |keys|) && r <= |keys| && i < |keys| && j in order[..r] && Precedes(keys, i, j)
    ensures i in order[..r]
  {
    var p :| 0 <= p < r && order[..r][p] == j;
    assert i in order;
    var k :| 0 <= k < |order| && order[k] == i;
    ComesFirst(keys, order, k, p);
    assert order[..r][k] == i;
  }

  // ----- no allocation is closer -----

  /** The total absolute deviation of an allocation from the quotas. */
  function Deviation(a: seq<int>, q: seq<real>): real
    requires |a| == |q|
  {
    if a == [] then 0.0 else Abs(a[0] as real - q[0]) + Deviation(a[1..], q[1..])
  }

  /** An integer that is the floor with at most the threshold as fraction, or one more with at least it. */
  ghost predicate AtThreshold(a: int, q: real, t: real) {
    (a == q.Floor && Fraction(q) <= t) || (a == q.Floor + 1 && Fraction(q) >= t)
  }

  /** No other integer does better at a price of 1 - 2t for every unit. */
  lemma TermOptimal(a: int, x: int, q: real, t: real, price: real)
    requires AtThreshold(a, q, t) && 0.0 <= t <= 1.0 && price == 1.0 - 2.0 * t
    ensures Abs(x as real - q) - Abs(a as real - q) >= Mul((x - a) as real, price)
  {
    var m, f := (x - a) as real, Fraction(q);
    if x > a {
      MulGrows(m, price, 1.0);
      if a == q.Floor { UnitCost(m, t, f); }
    } else if x < a {
      ReverseCost(m, price);
      if a != q.Floor { UnitCost(-m, 1.0 - t, 1.0 - f); }
    }
  }

  lemma UnitCost(m: real, t: real, f: real)
    requires m >= 1.0 && 0.0 <= f <= t
    ensures m - 2.0 * f >= Mul(m, 1.0 - 2.0 * t)
    ensures Mul(m, 1.0 - 2.0 * t) == Mul(-m, 2.0 * t - 1.0)
  {
    assert Mul(m, 1.0 - 2.0 * t) == m - 2.0 * Mul(m, t);
    MulAdd(1.0, m - 1.0, t);
    MulMono(0.0, m - 1.0, 0.0, t);
  }

  lemma ReverseCost(m: real, price: real)
    requires m <= 0.0 && -1.0 <= price
    ensures Mul(m, price) <= -m
  {}

  /** The fraction at which rounding up stops. */
  function Threshold(total: nat, weights: seq<real>): (t: real)
    requires ValidWeights(weights)
    ensures 0.0 <= t <= 1.0
  {
    var order, r := Order(total, weights), Remainder(total, weights);
    if r == 0 then 1.0 else Fractions(Quotas(total, weights))[order[r - 1]]
  }

  lemma AllocationAtThreshold(total: nat, weights: seq<real>, i: nat)
    requires ValidWeights(weights) && i < |weights|
    ensures AtThreshold(Allocation(total, weights)[i], Quotas(total, weights)[i], Threshold(total, weights))
  {
    var keys, order, r := Fractions(Quotas(total, weights)), Order(total, weights), Remainder(total, weights);
    Picked(total, weights, i);
    ThresholdSplits(keys, order, r, i);
    hide Quotas, Fractions, Order, Remainder, Allocation, Ordered;
  }

  lemma ThresholdSplits(keys: seq<real>, order: seq<nat>, r: nat, i: nat)
    requires Ordered(keys, order, |keys|) && r <= |keys| && i < |keys|
    ensures i in order[..r] ==> r > 0 && keys[i] >= keys[order[r - 1]]
    ensures i !in order[..r] && r > 0 ==> keys[i] <= keys[order[r - 1]]
  {
    assert i in order;
    var p :| 0 <= p < |order| && order[p] == i;
    if p < r {
      assert order[..r][p] == i;
      assert p == r - 1 || Precedes(keys, order[p], order[r - 1]);
    } else if r > 0 {
      assert Precedes(keys, order[r - 1], order[p]);
    }
  }

  lemma {:induction false} DeviationBound(a: seq<int>, x: seq<int>, q: seq<real>, t: real, price: real)
    requires |a| == |x| == |q| && 0.0 <= t <= 1.0 && price == 1.0 - 2.0 * t
    requires forall i :: 0 <= i < |a| ==> AtThreshold(a[i], q[i], t)
    ensures Deviation(x, q) - Deviation(a, q) >= Mul((IntSum(x) - IntSum(a)) as real, price)
  {
    hide AtThreshold, Mul;
    if a == [] {
      MulZero(price);
    } else {
      DeviationBound(a[1..], x[1..], q[1..], t, price);
      TermOptimal(a[0], x[0], q[0], t, price);
      MulAdd((x[0] - a[0]) as real, (IntSum(x[1..]) - IntSum(a[1..])) as real, price);
    }
  }

  /** Among all integer allocations of the same total none deviates less from the quotas in sum. */
  lemma NoAllocationIsCloser(total: nat, weights: seq<real>, other: seq<int>)
    requires ValidWeights(weights) && |other| == |weights| && IntSum(other) == total
    ensures Deviation(Allocation(total, weights), Quotas(total, weights)) <= Deviation(other, Quotas(total, weights))
  {
    var a, q, t := Allocation(total, weights), Quotas(total, weights), Threshold(total, weights);
    forall i | 0 <= i < |a| ensures AtThreshold(a[i], q[i], t) { AllocationAtThreshold(total, weights, i); }
    AllocationSum(total, weights);
    hide Allocation, Quotas, Threshold, AtThreshold, Deviation;
    DeviationBound(a, other, q, t, 1.0 - 2.0 * t);
    MulZero(1.0 - 2.0 * t);
  }
}
