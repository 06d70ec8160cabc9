/** Client-level evaluation of one global model: weighted accuracy and Jain's fairness index. */
module FairnessMetrics {
  import opened RealMath
  import opened SortedInts
  import opened HeldOutPartition

  // ----- accuracy -----

  /** How many of the samples the model gets right. */
  function Correct(samples: seq<nat>, right: nat -> bool): nat {
    if samples == [] then 0 else (if right(samples[0]) then 1 else 0) + Correct(samples[1..], right)
  }

  lemma {:induction false} CorrectAppend(s: seq<nat>, t: seq<nat>, right: nat -> bool)
    ensures Correct(s + t, right) == Correct(s, right) + Correct(t, right)
  {
    if s == [] {
      assert s + t == t;
    } else {
      assert (s + t)[1..] == s[1..] + t;
      CorrectAppend(s[1..], t, right);
    }
  }

  /** The positions of the samples that the model gets right. */
  ghost function Hits(samples: seq<nat>, right: nat -> bool): set<nat> {
    set i | 0 <= i < |samples| && right(samples[i])
  }

  lemma {:induction false} CorrectCounts(samples: seq<nat>, right: nat -> bool)
    ensures Correct(samples, right) == |Hits(samples, right)|
    decreases |samples|
  {
    if samples != [] {
      var n := |samples| - 1;
      var front, last := samples[..n], samples[n];
      CorrectCounts(front, right);
      assert samples == front + [last];
      CorrectAppend(front, [last], right);
      assert [last][1..] == [];
      assert Hits(samples, right) == Hits(front, right) + (if right(last) then {n} else {});
    } else {
      assert Hits(samples, right) == {};
    }
  }

  /** The accuracy is the fraction of the samples that are right. */
  lemma AccuracyMeans(samples: seq<nat>, right: nat -> bool)
    ensures Mul(|samples| as real, Accuracy(samples, right)) == |Hits(samples, right)| as real
    ensures 0.0 <= Accuracy(samples, right) <= 1.0
  {
    CorrectCounts(samples, right);
    CorrectAtMost(samples, right);
    if samples == [] {
      assert Mul(0.0, 0.0) == 0.0;
    } else {
      RatioTimes(Correct(samples, right), |samples|);
      RatioBounds(Correct(samples, right), |samples|);
    }
  }

  lemma {:induction false} CorrectAtMost(samples: seq<nat>, right: nat -> bool)
    ensures Correct(samples, right) <= |samples|
  {
    if samples != [] { CorrectAtMost(samples[1..], right); }
  }

  lemma RatioBounds(a: nat, b: nat)
    requires 0 < b && a <= b
    ensures 0.0 <= Ratio(a, b) <= 1.0
  {
    DivMono(a as real, b as real, b as real);
    DivMono(0.0, a as real, b as real);
  }

  function Ratio(a: nat, b: nat): real
    requires b > 0
  {
    a as real / b as real
  }

  function Accuracy(samples: seq<nat>, right: nat -> bool): real {
    if samples == [] then 0.0 else Ratio(Correct(samples, right), |samples|)
  }

  /** evaluate_global: batch after batch, then the fraction over everything seen. */
  method EvaluateGlobal(samples: seq<nat>, right: nat -> bool, batchSize: nat) returns (accuracy: real)
    requires batchSize > 0
    ensures accuracy == Accuracy(samples, right)
  {
    var totalCorrect, totalSamples := 0, 0;
    while totalSamples < |samples|
      invariant totalSamples <= |samples|
      invariant totalCorrect == Correct(samples[..totalSamples], right)
    {
      var next := if totalSamples + batchSize < |samples| then totalSamples + batchSize else |samples|;
      var batch := samples[totalSamples..next];
      assert samples[..next] == samples[..totalSamples] + batch;
      CorrectAppend(samples[..totalSamples], batch, right);
      totalCorrect := totalCorrect + Correct(batch, right);
      totalSamples := next;
    }
    assert samples[..|samples|] == samples;
    accuracy := if totalSamples == 0 then 0.0 else Ratio(totalCorrect, totalSamples);
  }

  datatype Row = Row(clientId: nat, sampleCount: nat, accuracy: real)

  function RowsOf(lists: Lists, right: nat -> bool, n: nat): (rows: seq<Row>)
    requires n <= |lists|
    ensures |rows| == n
  {
    if n == 0 then []
    else RowsOf(lists, right, n - 1) + [Row(n - 1, |lists[n - 1]|, Accuracy(lists[n - 1], right))]
  }

  /** The accuracies weighted by sample counts. */
  function WeightedSum(rows: seq<Row>): real {
    if rows == [] then 0.0
    else
      var last := rows[|rows| - 1];
      Mul(last.accuracy, last.sampleCount as real) + WeightedSum(rows[..|rows| - 1])
  }

  function Samples(rows: seq<Row>): nat {
    if rows == [] then 0 else rows[|rows| - 1].sampleCount + Samples(rows[..|rows| - 1])
  }

  function WeightedAccuracy(rows: seq<Row>): real
    requires Samples(rows) > 0
  {
    WeightedSum(rows) / Samples(rows) as real
  }

  lemma RatioTimes(a: nat, b: nat)
    requires b > 0
    ensures Mul(Ratio(a, b), b as real) == a as real
  {
    var x, y := a as real, b as real;
    assert (x / y) * y == x;
  }

  lemma {:induction false} RowsAddUp(lists: Lists, right: nat -> bool, n: nat)
    requires n <= |lists| && forall i :: 0 <= i < |lists| ==> lists[i] != []
    ensures WeightedSum(RowsOf(lists, right, n)) == Correct(Concatenated(lists[..n]), right) as real
    ensures Samples(RowsOf(lists, right, n)) == |Concatenated(lists[..n])|
  {
    if n > 0 {
      RowsAddUp(lists, right, n - 1);
      var rows := RowsOf(lists, right, n);
      assert rows[..n - 1] == RowsOf(lists, right, n - 1);
      assert lists[..n] == lists[..n - 1] + [lists[n - 1]];
      ConcatenatedSnoc(lists[..n - 1], lists[n - 1]);
      CorrectAppend(Concatenated(lists[..n - 1]), lists[n - 1], right);
      RatioTimes(Correct(lists[n - 1], right), |lists[n - 1]|);
    }
  }

  lemma {:induction false} ConcatenatedSnoc(lists: Lists, s: seq<nat>)
    ensures Concatenated(lists + [s]) == Concatenated(lists) + s
  {
    if lists == [] {
      assert lists + [s] == [s] && [s][1..] == [];
    } else {
      assert (lists + [s])[1..] == lists[1..] + [s];
      ConcatenatedSnoc(lists[1..], s);
      assert lists[0] + (Concatenated(lists[1..]) + s) == (lists[0] + Concatenated(lists[1..])) + s;
    }
  }

  /** The count does not depend on the order of the samples. */
  lemma {:induction false} CorrectIgnoresOrder(s: seq<nat>, t: seq<nat>, right: nat -> bool)
    requires multiset(s) == multiset(t)
    ensures Correct(s, right) == Correct(t, right)
    decreases |s|
  {
    if s == [] {
      assert |multiset(t)| == 0;
    } else {
      assert s == [s[0]] + s[1..];
      assert s[0] in multiset(t);
      var i :| 0 <= i < |t| && t[i] == s[0];
      CorrectWithout(t, i, right);
      WithoutBag(t, i);
      SameTail(s, t, i);
      CorrectIgnoresOrder(s[1..], Without(t, i), right);
    }
  }

  lemma SameTail(s: seq<nat>, t: seq<nat>, i: nat)
    requires s != [] && i < |t| && t[i] == s[0] && multiset(s) == multiset(t)
    ensures multiset(s[1..]) == multiset(Without(t, i))
  {
    WithoutBag(t, i);
    assert s == [s[0]] + s[1..];
    assert multiset(s) == multiset{s[0]} + multiset(s[1..]);
    forall y: nat ensures multiset(s[1..])[y] == multiset(Without(t, i))[y] {
      assert multiset(s)[y] == multiset(t)[y];
    }
  }

  lemma {:induction false} CorrectWithout(t: seq<nat>, i: nat, right: nat -> bool)
    requires i < |t|
    ensures Correct(t, right) == Correct(Without(t, i), right) + if right(t[i]) then 1 else 0
  {
    if i == 0 {
      assert Without(t, 0) == t[1..];
    } else {
      CorrectWithout(t[1..], i - 1, right);
      var rest := Without(t[1..], i - 1);
      assert Without(t, i) == [t[0]] + rest;
      assert Without(t, i)[1..] == rest;
    }
  }

  /** The samples 0 to m - 1. */
  function AllSamples(m: nat): (s: seq<nat>)
    ensures |s| == m
  {
    if m == 0 then [] else AllSamples(m - 1) + [m - 1]
  }

  lemma {:induction false} AllSamplesBag(m: nat, x: nat)
    ensures multiset(AllSamples(m))[x] == if x < m then 1 else 0
  {
    if m > 0 { AllSamplesBag(m - 1, x); }
  }

  /** Over any exact cover by non-empty client lists the weighted client accuracy is the global accuracy. */
  lemma WeightedIsGlobal(lists: Lists, m: nat, right: nat -> bool)
    requires ExactCover(lists, m) && m > 0 && forall i :: 0 <= i < |lists| ==> lists[i] != []
    ensures Samples(RowsOf(lists, right, |lists|)) == m
    ensures WeightedAccuracy(RowsOf(lists, right, |lists|)) == Accuracy(AllSamples(m), right)
  {
    var all: seq<nat> := Concatenated(lists);
    assert lists[..|lists|] == lists;
    RowsAddUp(lists, right, |lists|);
    ConcatenatedBag(lists);
    CoverSize(Bag(lists), m);
    forall x: nat ensures multiset(AllSamples(m))[x] == multiset(all)[x] { AllSamplesBag(m, x); }
    assert multiset(AllSamples(m)) == multiset(all);
    CorrectIgnoresOrder(all, AllSamples(m), right);
  }

  /** The consistency check of the client evaluation never fires on the partitioner's output. */
  lemma ConsistencyCheckPasses(train: map<int, seq<int>>, targets: seq<int>, shuffle: Shuffle, right: nat -> bool)
    requires ProperShuffle(shuffle) && Partition(train, targets, shuffle).Ok?
    ensures var lists := Partition(train, targets, shuffle).value;
            var rows := RowsOf(lists, right, |lists|);
      && Samples(rows) == |targets| > 0
      && !(Abs(WeightedAccuracy(rows) - Accuracy(AllSamples(|targets|), right)) > 0.000000000001)
  {
    hide Partition, ProperShuffle, RowsOf, WeightedAccuracy, Accuracy, AllSamples, ExactCover, Contiguous, Abs;
    PartitionSucceeds(train, targets, shuffle);
    assert |train| > 0;
    var lists := Partition(train, targets, shuffle).value;
    WeightedIsGlobal(lists, |targets|, right);
    NoDifference(WeightedAccuracy(RowsOf(lists, right, |lists|)), Accuracy(AllSamples(|targets|), right));
  }

  lemma NoDifference(x: real, y: real)
    requires x == y
    ensures Abs(x - y) == 0.0
  {}

  // ----- Jain's index -----

  function Accuracies(rows: seq<Row>): (a: seq<real>)
    ensures |a| == |rows| && forall i :: 0 <= i < |a| ==> a[i] == rows[i].accuracy
  {
    seq(|rows|, i requires 0 <= i < |rows| => rows[i].accuracy)
  }

  function Square(x: real): real { Mul(x, x) }

  function SumOfSquares(a: seq<real>): real {
    if a == [] then 0.0 else Square(a[0]) + SumOfSquares(a[1..])
  }

  function Denominator(a: seq<real>): real { Mul(|a| as real, SumOfSquares(a)) }

  /** The square of the sum over n times the sum of the squares; one if all are zero. */
  function Jain(a: seq<real>): real {
    if Denominator(a) == 0.0 then 1.0 else Square(Sum(a)) / Denominator(a)
  }

  /** The squared distances from one value. */
  function Spread(a: seq<real>, x: real): real {
    if a == [] then 0.0 else Square(a[0] - x) + Spread(a[1..], x)
  }

  lemma SquareNonNegative(x: real)
    ensures Square(x) >= 0.0 && (Square(x) == 0.0 <==> x == 0.0)
  {
    if x != 0.0 { SquarePositive(x, Square(x)); }
  }

  lemma {:induction false} SpreadNonNegative(a: seq<real>, x: real)
    ensures Spread(a, x) >= 0.0
    ensures Spread(a, x) == 0.0 <==> forall i :: 0 <= i < |a| ==> a[i] == x
  {
    if a != [] {
      SpreadNonNegative(a[1..], x);
      SquareNonNegative(a[0] - x);
      assert a == [a[0]] + a[1..];
    }
  }

  lemma {:induction false} SpreadExpands(a: seq<real>, x: real)
    ensures Spread(a, x) == SumOfSquares(a) - 2.0 * Mul(x, Sum(a)) + Mul(|a| as real, Square(x))
  {
    if a != [] {
      SpreadExpands(a[1..], x);
      ExpandStep(a[0], x, Sum(a[1..]), |a[1..]| as real);
    }
  }

  lemma ExpandStep(y: real, x: real, s: real, n: real)
    ensures Square(y - x) == Square(y) - 2.0 * Mul(x, y) + Square(x)
    ensures Mul(x, y + s) == Mul(x, y) + Mul(x, s)
    ensures Mul(1.0 + n, Square(x)) == Square(x) + Mul(n, Square(x))
  {}

  /** How far the square of the sum stays below n times the sum of the squares. */
  function Gap(a: seq<real>): real { Denominator(a) - Square(Sum(a)) }

  lemma GapStep(a: seq<real>)
    requires a != []
    ensures Gap(a) == Gap(a[1..]) + Spread(a[1..], a[0])
  {
    var x, t := a[0], a[1..];
    SpreadExpands(t, x);
    GapAlgebra(x, Sum(t), SumOfSquares(t), |t| as real);
  }

  lemma GapAlgebra(x: real, s: real, q: real, n: real)
    ensures Mul(n + 1.0, Square(x) + q) - Square(x + s)
         == (Mul(n, q) - Square(s)) + (q - 2.0 * Mul(x, s) + Mul(n, Square(x)))
  {
    var xx := x * x;
    assert Mul(n + 1.0, xx + q) == n * xx + n * q + xx + q by { MulAdd(n, 1.0, xx + q); }
    assert Square(x + s) == xx + 2.0 * (x * s) + s * s;
  }

  /** The gap is never negative, and it is zero exactly when all values are equal. */
  lemma {:induction false} GapNonNegative(a: seq<real>)
    ensures Gap(a) >= 0.0
    ensures Gap(a) == 0.0 <==> forall i, j :: 0 <= i < j < |a| ==> a[i] == a[j]
  {
    if a != [] {
      var t := a[1..];
      GapNonNegative(t);
      GapStep(a);
      SpreadNonNegative(t, a[0]);
      assert a == [a[0]] + t;
      if Gap(a) == 0.0 {
        forall i, j | 0 <= i < j < |a| ensures a[i] == a[j] { assert a[j] == t[j - 1]; }
      }
      if forall i, j :: 0 <= i < j < |a| ==> a[i] == a[j] {
        forall i | 0 <= i < |t| ensures t[i] == a[0] { assert a[0] == a[i + 1]; }
      }
    }
  }

  /** The square of a sum of non-negative values is at least the sum of their squares. */
  lemma {:induction false} SumSquared(a: seq<real>)
    requires forall i :: 0 <= i < |a| ==> a[i] >= 0.0
    ensures Sum(a) >= 0.0 && Square(Sum(a)) >= SumOfSquares(a) >= 0.0
  {
    if a != [] {
      SumSquared(a[1..]);
      SquareNonNegative(a[0]);
      CrossTerm(a[0], Sum(a[1..]));
    }
  }

  lemma CrossTerm(x: real, s: real)
    requires x >= 0.0 && s >= 0.0
    ensures Square(x + s) >= Square(x) + Square(s)
  {
    MulMono(0.0, x, 0.0, s);
    assert Square(x + s) == Square(x) + Square(s) + 2.0 * (x * s);
  }

  /** Jain's index of non-negative accuracies lies between 1/n and 1, and is 1 exactly when all accuracies are equal. */
  lemma JainBounds(a: seq<real>)
    requires a != [] && forall i :: 0 <= i < |a| ==> a[i] >= 0.0
    ensures 1.0 / |a| as real <= Jain(a) <= 1.0
    ensures Jain(a) == 1.0 <==> forall i, j :: 0 <= i < j < |a| ==> a[i] == a[j]
  {
    SumSquared(a);
    GapNonNegative(a);
    var n, d, q := |a| as real, Denominator(a), SumOfSquares(a);
    MulMono(0.0, n, 0.0, q);
    if d == 0.0 {
      assert 1.0 / n <= 1.0;
      SquareNonNegative(Sum(a));
    } else {
      QuotientBounds(Square(Sum(a)), d, n, q);
    }
  }

  lemma QuotientBounds(s: real, d: real, n: real, q: real)
    requires d == Mul(n, q) && d > 0.0 && n >= 1.0 && q <= s <= d
    ensures 1.0 / n <= s / d <= 1.0 && (s / d == 1.0 <==> s == d)
  {
    DivMono(s, d, d);
    DivMono(q, s, d);
    assert d / d == 1.0;
    assert q / d == 1.0 / n by {
      assert q != 0.0;
      assert d == n * q;
    }
  }

  /** The number of values that are not zero. */
  function Served(a: seq<real>): nat {
    if a == [] then 0 else (if a[0] == 0.0 then 0 else 1) + Served(a[1..])
  }

  lemma {:induction false} ServedSums(a: seq<real>, x: real)
    requires forall i :: 0 <= i < |a| ==> a[i] == 0.0 || a[i] == x
    ensures Served(a) <= |a| && Sum(a) == Mul(Served(a) as real, x)
    ensures SumOfSquares(a) == Mul(Served(a) as real, Square(x))
  {
    if a != [] {
      ServedSums(a[1..], x);
      var k := Served(a[1..]) as real;
      MulAdd(k, 1.0, x);
      MulAdd(k, 1.0, Square(x));
      assert Mul(1.0, x) == x && Mul(1.0, Square(x)) == Square(x) && Square(0.0) == 0.0;
    } else {
      MulZero(x);
      MulZero(Square(x));
    }
  }

  /** If k of n clients share one positive accuracy and the rest have none, Jain's index is k / n. */
  lemma JainCountsServed(a: seq<real>, x: real)
    requires x > 0.0 && Served(a) > 0 && forall i :: 0 <= i < |a| ==> a[i] == 0.0 || a[i] == x
    ensures Jain(a) == Served(a) as real / |a| as real
  {
    ServedSums(a, x);
    hide Served, Sum, SumOfSquares;
    ServedQuotient(Served(a) as real, |a| as real, x);
  }

  lemma ServedQuotient(k: real, n: real, x: real)
    requires x > 0.0 && 0.0 < k <= n
    ensures Mul(n, Mul(k, Square(x))) != 0.0
    ensures Square(Mul(k, x)) / Mul(n, Mul(k, Square(x))) == k / n
  {
    var y := x * x;
    MulPositive(x, x, y);
    MulPositive(k, y, k * y);
    MulPositive(n, k * y, n * (k * y));
    assert (k * x) * (k * x) == k * (k * y) by { MulAssoc(k, x, k * x); MulAssoc(x, k, x); MulAssoc(k, x, x); }
    CancelQuotient(k, n, k * y);
  }

  lemma CancelQuotient(k: real, n: real, z: real)
    requires n > 0.0 && z > 0.0
    ensures n * z != 0.0 && (k * z) / (n * z) == k / n
  {
    MulPositive(n, z, n * z);
    var q := k / n;
    assert k == q * n;
    assert k * z == q * (n * z) by { MulAssoc(q, n, z); }
  }

  // ----- the program -----

  datatype Summary = Summary(clientCount: nat, totalSamples: nat, weightedAccuracy: real, jainIndex: real)

  /** evaluate_client_partitions: every client's list, then the summary. */
  method EvaluateClientPartitions(lists: Lists, right: nat -> bool, batchSize: int)
    returns (r: Outcome<(seq<Row>, Summary)>)
    ensures r.Ok? <==> batchSize > 0 && lists != [] && forall i :: 0 <= i < |lists| ==> lists[i] != []
    ensures r.Ok? ==>
      && r.value.0 == RowsOf(lists, right, |lists|) && Samples(r.value.0) > 0
      && r.value.1 == Summary(|lists|, Samples(r.value.0), WeightedAccuracy(r.value.0), Jain(Accuracies(r.value.0)))
  {
    if batchSize <= 0 { return Error("batch_size must be > 0"); }
    if lists == [] { return Error("client_dict must contain at least one client"); }
    var rows: seq<Row> := [];
    for i := 0 to |lists|
      invariant rows == RowsOf(lists, right, i) && forall k :: 0 <= k < i ==> lists[k] != []
    {
      if lists[i] == [] { return Error("client has no held-out evaluation samples"); }
      var accuracy := EvaluateGlobal(lists[i], right, batchSize);
      rows := rows + [Row(i, |lists[i]|, accuracy)];
    }
    SomeSamples(lists, right);
    return Ok((rows, Summary(|rows|, Samples(rows), WeightedAccuracy(rows), Jain(Accuracies(rows)))));
  }

  lemma SomeSamples(lists: Lists, right: nat -> bool)
    requires lists != [] && forall i :: 0 <= i < |lists| ==> lists[i] != []
    ensures Samples(RowsOf(lists, right, |lists|)) > 0
  {
    assert RowsOf(lists, right, |lists|)[|lists| - 1].sampleCount == |lists[|lists| - 1]|;
  }
}
