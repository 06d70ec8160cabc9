/** The mean of e^(K(K-1)) over a binomial K: the quantity inside the subsampled-Gaussian RDP sum. */
module BinomialMean {
  import opened RealMath

  /** k(k-1), the number of ordered pairs among k things. */
  function Pairs(k: nat): nat {
    if k == 0 then 0 else k * (k - 1)
  }

  lemma PairsMono(j: nat, k: nat)
    requires j <= k
    ensures Pairs(j) <= Pairs(k)
  {
    if j > 0 {
      assert j * (j - 1) <= j * (k - 1) <= k * (k - 1);
    }
  }

  /** b with probability q, a otherwise. */
  function Mix(q: real, a: real, b: real): real {
    (1.0 - q) * a + q * b
  }

  lemma MixBounds(q: real, a: real, b: real)
    requires 0.0 <= q <= 1.0 && a <= b
    ensures a <= Mix(q, a, b) <= b
  {
    MulMono(0.0, q, 0.0, b - a);
    MulMono(0.0, 1.0 - q, 0.0, b - a);
    assert Mix(q, a, b) - a == q * (b - a);
    assert b - Mix(q, a, b) == (1.0 - q) * (b - a);
  }

  lemma MixMono(q: real, a: real, b: real, r: real, c: real, d: real)
    requires 0.0 <= q <= r <= 1.0 && a <= c && b <= d && a <= b
    ensures Mix(q, a, b) <= Mix(r, c, d)
  {
    assert Mix(r, a, b) - Mix(q, a, b) == (r - q) * (b - a) >= 0.0;
    assert (1.0 - r) * (c - a) >= 0.0;
    assert r * (d - b) >= 0.0;
    assert Mix(r, c, d) - Mix(r, a, b) == (1.0 - r) * (c - a) + r * (d - b);
  }

  /** The mean of e^Pairs(j + K) for K successes in n independent trials of probability q,
      defined one trial at a time. */
  function Mean(n: nat, q: real, e: real, j: nat): real {
    if n == 0 then Pow(e, Pairs(j)) else Mix(q, Mean(n - 1, q, e, j), Mean(n - 1, q, e, j + 1))
  }

  /** The mean lies between the values at no success and at all successes, and grows with the offset. */
  lemma {:induction false} MeanBounds(n: nat, q: real, e: real, j: nat)
    requires 0.0 <= q <= 1.0 && e >= 1.0
    ensures 1.0 <= Pow(e, Pairs(j)) <= Mean(n, q, e, j) <= Pow(e, Pairs(j + n))
    ensures Mean(n, q, e, j) <= Mean(n, q, e, j + 1)
  {
    PairsMono(j, j + 1);
    PowGrowsWithExponent(e, Pairs(j), Pairs(j + 1));
    if n > 0 {
      MeanBounds(n - 1, q, e, j);
      MeanBounds(n - 1, q, e, j + 1);
      assert j + 1 + (n - 1) == j + n;
      MixBounds(q, Mean(n - 1, q, e, j), Mean(n - 1, q, e, j + 1));
      MixBounds(q, Mean(n - 1, q, e, j + 1), Mean(n - 1, q, e, j + 2));
    }
  }

  /** The mean grows with the success probability and with the base. */
  lemma {:induction false} MeanMono(n: nat, q: real, e: real, r: real, f: real, j: nat)
    requires 0.0 <= q <= r <= 1.0 && 1.0 <= e <= f
    ensures Mean(n, q, e, j) <= Mean(n, r, f, j)
  {
    if n == 0 {
      PowGrowsWithBase(e, f, Pairs(j));
    } else {
      MeanMono(n - 1, q, e, r, f, j);
      MeanMono(n - 1, q, e, r, f, j + 1);
      MeanBounds(n - 1, q, e, j);
      MixMono(q, Mean(n - 1, q, e, j), Mean(n - 1, q, e, j + 1),
              r, Mean(n - 1, r, f, j), Mean(n - 1, r, f, j + 1));
    }
  }

  lemma {:induction false} MeanAtEnds(n: nat, e: real, j: nat)
    ensures Mean(n, 0.0, e, j) == Pow(e, Pairs(j))
    ensures Mean(n, 1.0, e, j) == Pow(e, Pairs(j + n))
  {
    if n > 0 {
      MeanAtEnds(n - 1, e, j);
      MeanAtEnds(n - 1, e, j + 1);
      assert j + 1 + (n - 1) == j + n;
    }
  }

  // ----- the same mean as an explicit binomial sum -----

  function Factorial(n: nat): (f: real)
    ensures f > 0.0
  {
    if n == 0 then 1.0
    else
      MulPositive(n as real, Factorial(n - 1), Mul(n as real, Factorial(n - 1)));
      Mul(n as real, Factorial(n - 1))
  }

  /** The binomial coefficient, by Pascal's rule. */
  function Choose(n: nat, k: nat): real {
    if k == 0 then 1.0
    else if n == 0 then 0.0
    else Choose(n - 1, k) + Choose(n - 1, k - 1)
  }

  lemma {:induction false} ChooseAbove(n: nat, k: nat)
    requires k > n
    ensures Choose(n, k) == 0.0
  {
    if n > 0 {
      ChooseAbove(n - 1, k);
      ChooseAbove(n - 1, k - 1);
    }
  }

  lemma {:induction false} ChooseFactorial(n: nat, k: nat)
    requires k <= n
    ensures Mul(Choose(n, k), Mul(Factorial(k), Factorial(n - k))) == Factorial(n)
    decreases n
  {
    hide Mul;
    if k == n {
      ChooseAll(n);
      MulOne(Factorial(n));
    } else if k == 0 {
      MulOne(Factorial(n));
    } else {
      ChooseFactorial(n - 1, k);
      ChooseFactorial(n - 1, k - 1);
      var d := n - k;
      assert n - 1 - (k - 1) == d && n - 1 - k == d - 1;
      ChooseStep(Choose(n - 1, k), Choose(n - 1, k - 1), Factorial(k - 1), Factorial(d - 1), k as real, d as real,
                 n as real, Factorial(n - 1), Factorial(k), Factorial(d));
    }
  }

  lemma MulOne(x: real)
    ensures Mul(1.0, x) == x && Mul(1.0, Mul(x, 1.0)) == x && Mul(1.0, Mul(1.0, x)) == x
  {}

  lemma {:induction false} ChooseAll(n: nat)
    ensures Choose(n, n) == 1.0
  {
    if n > 0 {
      ChooseAbove(n - 1, n);
      ChooseAll(n - 1);
    }
  }

  lemma ChooseStep(a: real, b: real, u: real, v: real, x: real, y: real, z: real, g: real, xu: real, yv: real)
    requires xu == Mul(x, u) && yv == Mul(y, v) && z == x + y
    requires Mul(a, Mul(xu, v)) == g && Mul(b, Mul(u, yv)) == g
    ensures Mul(a + b, Mul(xu, yv)) == Mul(z, g)
  {
    var p := xu * yv;
    assert p == (xu * v) * y;
    assert p == (u * yv) * x;
    assert a * p == g * y by { MulAssoc(a, xu * v, y); }
    assert b * p == g * x by { MulAssoc(b, u * yv, x); }
    Distribute(a, b, p);
    Distribute(x, y, g);
  }

  function Product(w: real, x: real, y: real, z: real): real { w * (x * (y * z)) }

  /** The k-th summand: the probability of k successes times e^Pairs(j + k). */
  function Summand(n: nat, k: nat, q: real, e: real, j: nat): real {
    if k > n then 0.0
    else Product(Choose(n, k), Pow(1.0 - q, n - k), Pow(q, k), Pow(e, Pairs(j + k)))
  }

  function Summands(n: nat, m: nat, q: real, e: real, j: nat): real {
    if m == 0 then 0.0 else Summands(n, m - 1, q, e, j) + Summand(n, m - 1, q, e, j)
  }

  lemma SummandSplit(n: nat, k: nat, q: real, e: real, j: nat)
    requires k > 0
    ensures Summand(n + 1, k, q, e, j)
         == Mix(q, Summand(n, k, q, e, j), Summand(n, k - 1, q, e, j + 1))
  {
    hide Product, Mix;
    if k > n {
      ChooseAbove(n, k);
      ProductZero(0.0, Pow(q, k), Pow(e, Pairs(j + k)));
      MixZero(q);
    }
    if k <= n + 1 {
      assert Choose(n + 1, k) == Choose(n, k) + Choose(n, k - 1);
      assert Pow(q, k) == q * Pow(q, k - 1) && j + k == j + 1 + (k - 1);
      var low := if k <= n then Pow(1.0 - q, n - k) else 0.0;
      SplitTerms(q, Choose(n, k), Choose(n, k - 1), low, Pow(1.0 - q, n + 1 - k), Pow(q, k - 1), Pow(q, k),
                 Pow(e, Pairs(j + k)));
    }
  }

  lemma ProductZero(x: real, y: real, z: real)
    ensures Product(0.0, x, y, z) == 0.0
  {}

  lemma MixZero(q: real)
    ensures Mix(q, 0.0, 0.0) == 0.0
  {}

  lemma SplitTerms(q: real, c: real, d: real, low: real, high: real, s: real, qs: real, r: real)
    requires qs == q * s && (c == 0.0 || high == (1.0 - q) * low)
    ensures Product(c + d, high, qs, r) == Mix(q, Product(c, low, qs, r), Product(d, high, s, r))
  {
    var t := qs * r;
    assert t == q * (s * r) by { MulAssoc(q, s, r); }
    Distribute(c, d, high * t);
    assert c * (high * t) == (1.0 - q) * (c * (low * t)) by {
      if c != 0.0 { MulAssoc(1.0 - q, low, t); Swap(c, 1.0 - q, low * t); }
    }
    assert d * (high * t) == q * (d * (high * (s * r))) by {
      Swap(high, q, s * r);
      Swap(d, q, high * (s * r));
    }
  }

  lemma Swap(a: real, b: real, x: real)
    ensures a * (b * x) == b * (a * x)
  {}

  lemma Distribute(a: real, b: real, x: real)
    ensures (a + b) * x == a * x + b * x
  {}

  lemma Regroup(q: real, a: real, b: real, c: real, d: real)
    ensures Mix(q, a + b, c + d) == Mix(q, a, c) + Mix(q, b, d)
  {}

  lemma FirstSplit(n: nat, q: real, e: real, j: nat)
    ensures Summand(n + 1, 0, q, e, j) == Mix(q, Summand(n, 0, q, e, j), 0.0)
  {
    var r := Pow(e, Pairs(j));
    assert Summand(n + 1, 0, q, e, j) == 1.0 * (Pow(1.0 - q, n + 1) * (1.0 * r));
    assert Summand(n, 0, q, e, j) == 1.0 * (Pow(1.0 - q, n) * (1.0 * r));
    MulAssoc(1.0 - q, Pow(1.0 - q, n), r);
  }

  lemma {:induction false} SummandsSplit(n: nat, m: nat, q: real, e: real, j: nat)
    ensures Summands(n + 1, m + 1, q, e, j)
         == Mix(q, Summands(n, m + 1, q, e, j), Summands(n, m, q, e, j + 1))
  {
    hide Product, Mix;
    if m == 0 {
      FirstSplit(n, q, e, j);
      assert Summands(n + 1, 1, q, e, j) == Summands(n + 1, 0, q, e, j) + Summand(n + 1, 0, q, e, j);
      assert Summands(n, 1, q, e, j) == Summands(n, 0, q, e, j) + Summand(n, 0, q, e, j);
    } else {
      SummandsSplit(n, m - 1, q, e, j);
      SummandSplit(n, m, q, e, j);
      Regroup(q, Summands(n, m, q, e, j), Summand(n, m, q, e, j),
              Summands(n, m - 1, q, e, j + 1), Summand(n, m - 1, q, e, j + 1));
    }
  }

  /** The binomial sum is the trial-by-trial mean; with e = 1 this is the binomial theorem. */
  lemma {:induction false} BinomialSum(n: nat, q: real, e: real, j: nat)
    ensures Summands(n, n + 1, q, e, j) == Mean(n, q, e, j)
  {
    if n == 0 {
      assert Summands(0, 1, q, e, j) == Summands(0, 0, q, e, j) + Summand(0, 0, q, e, j);
    } else {
      BinomialSum(n - 1, q, e, j);
      BinomialSum(n - 1, q, e, j + 1);
      SummandsSplit(n - 1, n, q, e, j);
      assert Summands(n - 1, n + 1, q, e, j) == Summands(n - 1, n, q, e, j) + Summand(n - 1, n, q, e, j);
    }
  }
}
