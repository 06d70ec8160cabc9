/** Client-level Renyi accounting of the Poisson-subsampled Gaussian mechanism. */
module DpAccountant {
  import opened RealMath
  import opened BinomialMean
  import opened SortedInts

  /** The float values the accounting can meet; inf * 0.0 is nan. */
  datatype Float = Fin(v: real) | Inf | NaN

  predicate AtMost(a: Float, b: Float) {
    match (a, b)
    case (Fin(x), Fin(y)) => x <= y
    case (Fin(_), Inf) => true
    case (Inf, Inf) => true
    case _ => false
  }

  function Times(a: Float, n: nat): Float {
    match a
    case Fin(x) => Fin(x * n as real)
    case Inf => if n == 0 then NaN else Inf
    case NaN => NaN
  }

  function Add(a: Float, b: Float): Float {
    match (a, b)
    case (Fin(x), Fin(y)) => Fin(x + y)
    case (NaN, _) => NaN
    case (_, NaN) => NaN
    case _ => Inf
  }

  // ----- one step -----

  function TwiceVariance(sigma: real): (d: real)
    requires sigma > 0.0
    ensures d > 0.0
  {
    var d := 2.0 * sigma * sigma;
    MulPositive(2.0 * sigma, sigma, d);
    d
  }

  function Rate(sigma: real): (r: real)
    requires sigma > 0.0
    ensures r > 0.0
  {
    InversePositive(TwiceVariance(sigma));
    1.0 / TwiceVariance(sigma)
  }

  lemma InversePositive(d: real)
    requires d > 0.0
    ensures 1.0 / d > 0.0
  {
    assert (1.0 / d) * d == 1.0;
  }

  lemma RateAntitone(sigma: real, tau: real)
    requires 0.0 < tau <= sigma
    ensures Rate(sigma) <= Rate(tau)
  {
    MulMono(2.0 * tau, 2.0 * sigma, tau, sigma);
    InverseAntitone(TwiceVariance(tau), TwiceVariance(sigma));
  }

  lemma InverseAntitone(x: real, y: real)
    requires 0.0 < x <= y
    ensures 1.0 / y <= 1.0 / x
  {
    assert 1.0 / x - 1.0 / y == (y - x) / (x * y);
  }

  /** The reference: the RDP of one subsampled Gaussian step at order alpha is the scaled log of a binomial
      mean. No case for q = 1 is needed. */
  function RdpPerStep(m: RealFns, alpha: nat, q: real, sigma: real): Float
    requires alpha >= 2 && sigma >= 0.0
  {
    if q == 0.0 then Fin(0.0)
    else if sigma == 0.0 then Inf
    else Fin(m.log(Mean(alpha, q, m.exp(Rate(sigma)), 0)) / (alpha - 1) as real)
  }

  lemma RateExpAtLeastOne(m: RealFns, sigma: real)
    requires Standard(m) && sigma > 0.0
    ensures m.exp(Rate(sigma)) >= 1.0
  {
    ExpMono(m, 0.0, Rate(sigma));
  }

  /** log e^Pairs(alpha), divided by alpha - 1, is alpha / (2 sigma^2). */
  lemma FullBatchLog(m: RealFns, alpha: nat, sigma: real)
    requires Standard(m) && alpha >= 2 && sigma > 0.0
    ensures m.log(Pow(m.exp(Rate(sigma)), Pairs(alpha))) == Scaled(Pairs(alpha), Rate(sigma))
    ensures Scaled(Pairs(alpha), Rate(sigma)) / (alpha - 1) as real == alpha as real / TwiceVariance(sigma)
  {
    hide Standard, Pow, Pairs, Scaled, TwiceVariance;
    LogOfPower(m, Pairs(alpha), Rate(sigma));
    FullBatchQuotient(alpha, TwiceVariance(sigma));
  }

  lemma LogOfPower(m: RealFns, n: nat, r: real)
    requires Standard(m)
    ensures m.log(Pow(m.exp(r), n)) == Scaled(n, r)
  {
    hide Pow, Scaled;
    ExpScaled(m, n, r);
  }

  lemma FullBatchQuotient(alpha: nat, d: real)
    requires alpha >= 2 && d > 0.0
    ensures Scaled(Pairs(alpha), 1.0 / d) / (alpha - 1) as real == alpha as real / d
  {
    hide Pairs, Scaled;
    var a := alpha as real;
    ScaledPairs(alpha, 1.0 / d);
    CancelFactor(a - 1.0, Mul(a, 1.0 / d), Scaled(Pairs(alpha), 1.0 / d));
    Reciprocal(a, d);
  }

  lemma ScaledPairs(alpha: nat, r: real)
    requires alpha >= 2
    ensures Scaled(Pairs(alpha), r) == (alpha as real - 1.0) * Mul(alpha as real, r)
  {
    var a := alpha as real;
    PairsAsReal(alpha);
    MulAssoc(a - 1.0, a, r);
  }

  lemma PairsAsReal(alpha: nat)
    requires alpha >= 2
    ensures Pairs(alpha) as real == (alpha as real - 1.0) * alpha as real
  {}

  lemma CancelFactor(x: real, y: real, z: real)
    requires x > 0.0 && z == x * y
    ensures z / x == y
  {}

  lemma Reciprocal(a: real, d: real)
    requires d != 0.0
    ensures Mul(a, 1.0 / d) == a / d
  {}

  /** 0 <= RDP <= alpha / (2 sigma^2), the value without subsampling, which is attained at q = 1;
      at q = 0 the general sum is 0. */
  lemma RdpBounds(m: RealFns, alpha: nat, q: real, sigma: real)
    requires Standard(m) && alpha >= 2 && sigma > 0.0 && 0.0 <= q <= 1.0
    ensures RdpPerStep(m, alpha, q, sigma).Fin?
    ensures 0.0 <= RdpPerStep(m, alpha, q, sigma).v <= alpha as real / (2.0 * sigma * sigma)
    ensures q == 1.0 ==> RdpPerStep(m, alpha, q, sigma).v == alpha as real / (2.0 * sigma * sigma)
    ensures m.log(Mean(alpha, 0.0, m.exp(Rate(sigma)), 0)) / (alpha - 1) as real == 0.0
  {
    var e := m.exp(Rate(sigma));
    RateExpAtLeastOne(m, sigma);
    MeanBounds(alpha, q, e, 0);
    MeanAtEnds(alpha, e, 0);
    LogOne(m);
    LogMono(m, 1.0, Mean(alpha, q, e, 0));
    LogMono(m, Mean(alpha, q, e, 0), Pow(e, Pairs(alpha)));
    FullBatchLog(m, alpha, sigma);
    DivMono(0.0, m.log(Mean(alpha, q, e, 0)), (alpha - 1) as real);
    DivMono(m.log(Mean(alpha, q, e, 0)), Scaled(Pairs(alpha), Rate(sigma)), (alpha - 1) as real);
    TwiceVarianceIs(sigma);
  }

  lemma TwiceVarianceIs(sigma: real)
    requires sigma > 0.0
    ensures TwiceVariance(sigma) == 2.0 * sigma * sigma
  {}

  /** The k-th term of the sum that defines the RDP of a subsampled step: k of alpha are sampled. */
  function SampledTerm(m: RealFns, alpha: nat, k: nat, q: real, sigma: real): real
    requires k <= alpha && sigma > 0.0
  {
    TwiceVarianceIs(sigma);
    Product(Choose(alpha, k), Pow(1.0 - q, alpha - k), Pow(q, k), m.exp((k * (k - 1)) as real / (2.0 * sigma * sigma)))
  }

  function SampledTerms(m: RealFns, alpha: nat, n: nat, q: real, sigma: real): seq<real>
    requires n <= alpha + 1 && sigma > 0.0
  {
    seq(n, k requires 0 <= k < n => SampledTerm(m, alpha, k, q, sigma))
  }

  lemma TermIsSummand(m: RealFns, alpha: nat, k: nat, q: real, sigma: real)
    requires Standard(m) && k <= alpha && sigma > 0.0
    ensures SampledTerm(m, alpha, k, q, sigma) == Summand(alpha, k, q, m.exp(Rate(sigma)), 0)
  {
    hide Standard, Pow, Choose, Product;
    TwiceVarianceIs(sigma);
    ExpScaled(m, Pairs(k), Rate(sigma));
    hide TwiceVariance;
    Reciprocal(Pairs(k) as real, TwiceVariance(sigma));
    assert Pairs(k) == k * (k - 1);
    assert Scaled(Pairs(k), Rate(sigma)) == (k * (k - 1)) as real / TwiceVariance(sigma);
  }

  lemma {:induction false} TermsAddUp(m: RealFns, alpha: nat, n: nat, q: real, sigma: real)
    requires Standard(m) && n <= alpha + 1 && sigma > 0.0
    ensures Sum(SampledTerms(m, alpha, n, q, sigma)) == Summands(alpha, n, q, m.exp(Rate(sigma)), 0)
  {
    hide Standard, SampledTerm, Summand, Rate;
    if n > 0 {
      TermsAddUp(m, alpha, n - 1, q, sigma);
      TermIsSummand(m, alpha, n - 1, q, sigma);
      SumSnoc(SampledTerms(m, alpha, n - 1, q, sigma), SampledTerm(m, alpha, n - 1, q, sigma));
      assert SampledTerms(m, alpha, n, q, sigma)
          == SampledTerms(m, alpha, n - 1, q, sigma) + [SampledTerm(m, alpha, n - 1, q, sigma)];
    }
  }

  /** What the RDP of one step is, with the noise written out: exp of alpha - 1 times it is the binomial sum of
      e^(k (k - 1) / (2 sigma^2)). */
  lemma RdpIsBinomialSum(m: RealFns, alpha: nat, q: real, sigma: real)
    requires Standard(m) && alpha >= 2 && sigma > 0.0 && 0.0 <= q <= 1.0
    ensures RdpPerStep(m, alpha, q, sigma).Fin?
    ensures m.exp(Mul((alpha - 1) as real, RdpPerStep(m, alpha, q, sigma).v))
         == Sum(SampledTerms(m, alpha, alpha + 1, q, sigma))
  {
    var e := m.exp(Rate(sigma));
    RateExpAtLeastOne(m, sigma);
    MeanBounds(alpha, q, e, 0);
    MeanAtEnds(alpha, e, 0);
    BinomialSum(alpha, q, e, 0);
    TermsAddUp(m, alpha, alpha + 1, q, sigma);
    hide Mean, Summands, SampledTerms, Rate, Choose;
    TimesQuotient((alpha - 1) as real, m.log(Mean(alpha, q, e, 0)));
  }

  lemma TimesQuotient(n: real, x: real)
    requires n > 0.0
    ensures Mul(n, x / n) == x && Mul(n, 0.0) == 0.0
  {}

  /** RDP grows with the sampling rate and falls with the noise. */
  lemma RdpMono(m: RealFns, alpha: nat, q: real, sigma: real, r: real, tau: real)
    requires Standard(m) && alpha >= 2 && 0.0 <= q <= r <= 1.0 && 0.0 <= tau <= sigma
    ensures AtMost(RdpPerStep(m, alpha, q, sigma), RdpPerStep(m, alpha, r, tau))
  {
    if q > 0.0 && tau > 0.0 {
      RateAntitone(sigma, tau);
      ExpMono(m, Rate(sigma), Rate(tau));
      var e, f := m.exp(Rate(sigma)), m.exp(Rate(tau));
      RateExpAtLeastOne(m, sigma);
      MeanBounds(alpha, q, e, 0);
      MeanMono(alpha, q, e, r, f, 0);
      LogMono(m, Mean(alpha, q, e, 0), Mean(alpha, r, f, 0));
      DivMono(m.log(Mean(alpha, q, e, 0)), m.log(Mean(alpha, r, f, 0)), (alpha - 1) as real);
    } else if tau > 0.0 {
      RdpBounds(m, alpha, r, tau);
    }
  }

  // ----- the code's log-domain sum -----

  /** log of the binomial coefficient through gammaln, gammaln(n + 1) = log n!. */
  function LogBinomial(m: RealFns, alpha: nat, k: nat): real
    requires k <= alpha
  {
    m.log(Factorial(alpha)) - m.log(Factorial(k)) - m.log(Factorial(alpha - k))
  }

  function LogTerm(m: RealFns, alpha: nat, k: nat, q: real, sigma: real): real
    requires k <= alpha && sigma > 0.0
  {
    LogBinomial(m, alpha, k)
    + Scaled(alpha - k, m.log(1.0 - q))
    + (if k > 0 then Scaled(k, m.log(q)) else 0.0)
    + Scaled(Pairs(k), Rate(sigma))
  }

  lemma ExpLogBinomial(m: RealFns, alpha: nat, k: nat)
    requires Standard(m) && k <= alpha
    ensures m.exp(LogBinomial(m, alpha, k)) == Choose(alpha, k)
  {
    ChooseFactorial(alpha, k);
    ExpOfQuotient(m, Factorial(alpha), Factorial(k), Factorial(alpha - k), Choose(alpha, k));
  }

  lemma ExpOfQuotient(m: RealFns, x: real, y: real, z: real, c: real)
    requires Standard(m) && x > 0.0 && y > 0.0 && z > 0.0 && Mul(c, Mul(y, z)) == x
    ensures m.exp(m.log(x) - m.log(y) - m.log(z)) == c
  {
    var d := m.log(x) - m.log(y) - m.log(z);
    var yz := m.log(y) + m.log(z);
    ExpAdd(m, m.log(y), m.log(z));
    ExpAdd(m, d, yz);
    assert d + yz == m.log(x);
    CancelCommon(m.exp(d), c, m.exp(yz), x);
  }

  lemma CancelCommon(x: real, y: real, z: real, p: real)
    requires z > 0.0 && x * z == p && y * z == p
    ensures x == y
  {
    assert (x - y) * z == 0.0;
  }

  lemma ExpOfSum(m: RealFns, a: real, b: real, c: real, d: real, w: real, x: real, y: real, z: real)
    requires Standard(m) && m.exp(a) == w && m.exp(b) == x && m.exp(c) == y && m.exp(d) == z
    ensures m.exp(a + b + c + d) == Product(w, x, y, z)
  {
    ExpAdd(m, c, d);
    ExpAdd(m, b, c + d);
    ExpAdd(m, a, b + (c + d));
    assert a + b + c + d == a + (b + (c + d));
  }

  lemma ExpLogTerm(m: RealFns, alpha: nat, k: nat, q: real, sigma: real)
    requires Standard(m) && k <= alpha && sigma > 0.0 && 0.0 < q < 1.0
    ensures m.exp(LogTerm(m, alpha, k, q, sigma)) == Summand(alpha, k, q, m.exp(Rate(sigma)), 0)
  {
    var hit := if k > 0 then Scaled(k, m.log(q)) else 0.0;
    ExpLogBinomial(m, alpha, k);
    ExpScaled(m, alpha - k, m.log(1.0 - q));
    ExpScaled(m, k, m.log(q));
    ExpScaled(m, Pairs(k), Rate(sigma));
    ExpOfSum(m, LogBinomial(m, alpha, k), Scaled(alpha - k, m.log(1.0 - q)), hit, Scaled(Pairs(k), Rate(sigma)),
             Choose(alpha, k), Pow(1.0 - q, alpha - k), Pow(q, k), Pow(m.exp(Rate(sigma)), Pairs(k)));
  }

  /** The sum of the exponentials of a list of logs. */
  function ExpSum(m: RealFns, logs: seq<real>): real {
    if logs == [] then 0.0 else ExpSum(m, logs[..|logs| - 1]) + m.exp(logs[|logs| - 1])
  }

  function LogSumExp(m: RealFns, logs: seq<real>): real {
    m.log(ExpSum(m, logs))
  }

  method ComputeRdpSingleStep(m: RealFns, alpha: nat, q: real, sigma: real) returns (rdp: Float)
    requires Standard(m) && alpha >= 2 && 0.0 <= q <= 1.0 && sigma >= 0.0
    ensures rdp == RdpPerStep(m, alpha, q, sigma)
  {
    if q == 0.0 {
      return Fin(0.0);
    }
    if sigma == 0.0 {
      return Inf;
    }
    if q == 1.0 {
      RdpBounds(m, alpha, q, sigma);
      return Fin(alpha as real / (2.0 * sigma * sigma));
    }
    ghost var e := m.exp(Rate(sigma));
    var logTerms := [];
    for k := 0 to alpha + 1
      invariant |logTerms| == k
      invariant ExpSum(m, logTerms) == Summands(alpha, k, q, e, 0)
    {
      ExpLogTerm(m, alpha, k, q, sigma);
      var logTerm := LogBinomial(m, alpha, k)
        + Scaled(alpha - k, m.log(1.0 - q))
        + (if k > 0 then Scaled(k, m.log(q)) else 0.0)
        + Scaled(Pairs(k), Rate(sigma));
      assert (logTerms + [logTerm])[..k] == logTerms;
      logTerms := logTerms + [logTerm];
    }
    BinomialSum(alpha, q, e, 0);
    return Fin(LogSumExp(m, logTerms) / (alpha - 1) as real);
  }

  // ----- curves over a grid of orders -----

  function DefaultOrders(): seq<int> {
    seq(63, i => i + 2) + [80, 96, 128, 256, 512]
  }

  ghost predicate ValidOrders(orders: seq<int>) {
    orders != [] && Increasing(orders) && forall i :: 0 <= i < |orders| ==> orders[i] >= 2
  }

  function ValidateOrders(orders: seq<int>): (r: Outcome<seq<int>>)
    ensures r.Ok? <==> orders != [] && forall x :: x in orders ==> x >= 2
    ensures r.Ok? ==> ValidOrders(r.value) && forall x :: x in r.value <==> x in orders
  {
    var normalized := SortedDistinct(orders);
    if normalized == [] then Error("At least one RDP order is required.")
    else if normalized[0] < 2 then Error("All RDP orders must be integers >= 2.")
    else Ok(normalized)
  }

  /** `orders or DEFAULT_ORDERS`, validated. */
  function Grid(orders: seq<int>): (r: Outcome<seq<int>>)
    ensures r.Ok? <==> forall x :: x in orders ==> x >= 2
    ensures r.Ok? ==> ValidOrders(r.value)
  {
    ValidateOrders(if orders == [] then DefaultOrders() else orders)
  }

  /** A valid grid is its own listing. */
  lemma GridOfValid(orders: seq<int>)
    requires ValidOrders(orders)
    ensures Grid(orders) == ValidateOrders(orders) == Ok(orders)
  {
    IncreasingUnique(orders, ValidateOrders(orders).value);
  }

  /** Validation keeps the list as the caller gave it, so that values stay with their orders, exactly when it is
      strictly increasing. */
  lemma OrdersKeptExactly(orders: seq<int>)
    requires ValidateOrders(orders).Ok?
    ensures ValidateOrders(orders).value == orders <==> Increasing(orders)
  {
    hide SortedDistinct;
    if Increasing(orders) {
      var sorted := ValidateOrders(orders).value;
      assert forall x :: x in sorted <==> x in orders;
      IncreasingUnique(orders, sorted);
    }
  }

  /** A list for which it does not: the first of the caller's values meets the order 2 instead of 3. */
  lemma UnsortedOrdersMove()
    ensures ValidateOrders([3, 2]) == Ok([2, 3])
  {
    var sorted := ValidateOrders([3, 2]).value;
    assert forall x :: x in [2, 3] <==> x in [3, 2];
    IncreasingUnique(sorted, [2, 3]);
  }

  /** The composed curve of a number of steps. */
  function Curve(m: RealFns, orders: seq<int>, q: real, sigma: real, steps: nat): (c: seq<Float>)
    requires ValidOrders(orders) && sigma >= 0.0
    ensures |c| == |orders|
  {
    seq(|orders|, i requires 0 <= i < |orders| => Times(RdpPerStep(m, orders[i], q, sigma), steps))
  }

  /** Running a step n times multiplies its finite RDP by n; an infinite one stays infinite, except that zero steps make
      it nan. */
  lemma CurveMeans(m: RealFns, orders: seq<int>, q: real, sigma: real, steps: nat, i: nat)
    requires ValidOrders(orders) && sigma >= 0.0 && i < |orders|
    ensures var one, all := RdpPerStep(m, orders[i], q, sigma), Curve(m, orders, q, sigma, steps)[i];
            && (one.Fin? ==> all == Fin(one.v * steps as real))
            && (one.Inf? ==> all == if steps == 0 then NaN else Inf)
            && !one.NaN? && (one.Inf? <==> q != 0.0 && sigma == 0.0) && (q == 0.0 ==> one == Fin(0.0))
  {}

  method ComputeRdp(m: RealFns, q: real, sigma: real, steps: int, orders: seq<int>)
    returns (r: Outcome<seq<Float>>)
    requires Standard(m)
    ensures r.Ok? <==> 0.0 <= q <= 1.0 && sigma >= 0.0 && steps >= 0 && Grid(orders).Ok?
    ensures r.Ok? ==> r.value == Curve(m, Grid(orders).value, q, sigma, steps)
  {
    hide Standard, RdpPerStep, ValidateOrders, Times;
    if !(0.0 <= q <= 1.0) { return Error("sample_rate must lie in [0, 1]."); }
    if sigma < 0.0 { return Error("noise_multiplier must be >= 0."); }
    if steps < 0 { return Error("steps must be >= 0."); }
    var validated := Grid(orders);
    if validated.Error? { return Error(validated.message); }
    var perStep := [];
    for i := 0 to |validated.value|
      invariant |perStep| == i
      invariant forall j :: 0 <= j < i ==> perStep[j] == RdpPerStep(m, validated.value[j], q, sigma)
    {
      var rdp := ComputeRdpSingleStep(m, validated.value[i], q, sigma);
      perStep := perStep + [rdp];
    }
    var curve := seq(|perStep|, i requires 0 <= i < |perStep| => Times(perStep[i], steps));
    assert curve == Curve(m, validated.value, q, sigma, steps);
    return Ok(curve);
  }

  // ----- conversion to (epsilon, delta) -----

  /** What one order offers; an order without a finite value offers nothing. */
  function EpsilonAt(m: RealFns, order: int, rdp: Float, delta: real): Float
    requires order >= 2 && 0.0 < delta < 1.0
  {
    if rdp.Fin? then Fin(rdp.v + m.log(1.0 / delta) / (order - 1) as real) else Inf
  }

  function Smaller(a: Float, b: Float): Float {
    if AtMost(a, b) then a else b
  }

  /** The least epsilon over the first n orders. */
  function BestEpsilon(m: RealFns, orders: seq<int>, rdp: seq<Float>, delta: real, n: nat): Float
    requires ValidOrders(orders) && |rdp| == |orders| && 0.0 < delta < 1.0 && n <= |orders|
  {
    if n == 0 then Inf
    else Smaller(BestEpsilon(m, orders, rdp, delta, n - 1), EpsilonAt(m, orders[n - 1], rdp[n - 1], delta))
  }

  /** It is at most what every order offers, and is offered by one of them unless none offers anything. */
  lemma {:induction false} BestIsMinimum(m: RealFns, orders: seq<int>, rdp: seq<Float>, delta: real, n: nat)
    requires ValidOrders(orders) && |rdp| == |orders| && 0.0 < delta < 1.0 && n <= |orders|
    ensures var best := BestEpsilon(m, orders, rdp, delta, n);
            && !best.NaN?
            && (forall i :: 0 <= i < n ==> AtMost(best, EpsilonAt(m, orders[i], rdp[i], delta)))
            && (best.Fin? ==> exists i :: 0 <= i < n && best == EpsilonAt(m, orders[i], rdp[i], delta))
            && (best.Inf? <==> forall i :: 0 <= i < n ==> !rdp[i].Fin?)
  {
    if n > 0 {
      BestIsMinimum(m, orders, rdp, delta, n - 1);
      var last := EpsilonAt(m, orders[n - 1], rdp[n - 1], delta);
      var best := BestEpsilon(m, orders, rdp, delta, n);
      assert best == last || best == BestEpsilon(m, orders, rdp, delta, n - 1);
      assert best.Fin? && best == last ==> 0 <= n - 1 < n && best == EpsilonAt(m, orders[n - 1], rdp[n - 1], delta);
    }
  }

  lemma {:induction false} BestMono(m: RealFns, orders: seq<int>, a: seq<Float>, b: seq<Float>, delta: real, n: nat)
    requires ValidOrders(orders) && |a| == |b| == |orders| && 0.0 < delta < 1.0 && n <= |orders|
    requires forall i :: 0 <= i < n ==> AtMost(a[i], b[i])
    ensures AtMost(BestEpsilon(m, orders, a, delta, n), BestEpsilon(m, orders, b, delta, n))
  {
    if n > 0 {
      BestMono(m, orders, a, b, delta, n - 1);
      assert AtMost(a[n - 1], b[n - 1]);
    }
  }

  /** order is the first of the first n orders to offer epsilon, or the first of all when none offers anything. */
  ghost predicate FirstToOffer(m: RealFns, orders: seq<int>, rdp: seq<Float>, delta: real, n: nat,
                               epsilon: Float, order: int)
    requires ValidOrders(orders) && |rdp| == |orders| && 0.0 < delta < 1.0 && n <= |orders|
  {
    if epsilon.Inf? then order == orders[0]
    else exists k ::
      && 0 <= k < n
      && order == orders[k]
      && EpsilonAt(m, orders[k], rdp[k], delta) == epsilon
      && forall j :: 0 <= j < k ==> !AtMost(EpsilonAt(m, orders[j], rdp[j], delta), epsilon)
  }

  lemma FirstToOfferStep(m: RealFns, orders: seq<int>, rdp: seq<Float>, delta: real, n: nat,
                         epsilon: Float, order: int)
    requires ValidOrders(orders) && |rdp| == |orders| && 0.0 < delta < 1.0 && n < |orders|
    requires epsilon == BestEpsilon(m, orders, rdp, delta, n) && FirstToOffer(m, orders, rdp, delta, n, epsilon, order)
    ensures var next := EpsilonAt(m, orders[n], rdp[n], delta);
            FirstToOffer(m, orders, rdp, delta, n + 1, Smaller(epsilon, next),
                         if AtMost(epsilon, next) then order else orders[n])
  {
    BestIsMinimum(m, orders, rdp, delta, n);
    var next := EpsilonAt(m, orders[n], rdp[n], delta);
    if !AtMost(epsilon, next) {
      forall j | 0 <= j < n ensures !AtMost(EpsilonAt(m, orders[j], rdp[j], delta), next) {
        assert AtMost(epsilon, EpsilonAt(m, orders[j], rdp[j], delta));
      }
    }
  }

  /** e^x to the power order - 1, times delta: 1 exactly when rdp + x is the epsilon of this order at delta, and below 1
      when it is less. */
  function Spent(m: RealFns, x: real, order: nat, delta: real): real
    requires order >= 2
  {
    Pow(m.exp(x), order - 1) * delta
  }

  /** Epsilon is that of the order, no order has a smaller one, and no earlier order has the same. */
  ghost predicate Converts(m: RealFns, orders: seq<int>, rdp: seq<Float>, delta: real, epsilon: Float, order: int)
    requires ValidOrders(orders) && |rdp| == |orders|
  {
    && !epsilon.NaN?
    && (epsilon.Inf? <==> forall i :: 0 <= i < |rdp| ==> !rdp[i].Fin?)
    && (epsilon.Inf? ==> order == orders[0])
    && (epsilon.Fin? ==>
          && (forall i :: 0 <= i < |rdp| && rdp[i].Fin? ==> Spent(m, epsilon.v - rdp[i].v, orders[i], delta) <= 1.0)
          && exists k ::
               && 0 <= k < |rdp| && order == orders[k] && rdp[k].Fin?
               && Spent(m, epsilon.v - rdp[k].v, orders[k], delta) == 1.0
               && forall j :: 0 <= j < k && rdp[j].Fin? ==> Spent(m, epsilon.v - rdp[j].v, orders[j], delta) < 1.0)
  }

  lemma SpentExactly(m: RealFns, x: real, order: nat, delta: real)
    requires Standard(m) && order >= 2 && 0.0 < delta < 1.0
    ensures Spent(m, x, order, delta) <= 1.0 <==> x <= m.log(1.0 / delta) / (order - 1) as real
    ensures Spent(m, x, order, delta) == 1.0 <==> x == m.log(1.0 / delta) / (order - 1) as real
  {
    var n := order - 1;
    var y := m.log(1.0 / delta) / n as real;
    ExpOfShare(m, n, delta);
    if x < y {
      ExpStrict(m, x, y);
      PowStrict(m.exp(x), m.exp(y), n);
      TimesDelta(Pow(m.exp(x), n), Pow(m.exp(y), n), delta);
    } else if y < x {
      ExpStrict(m, y, x);
      PowStrict(m.exp(y), m.exp(x), n);
      TimesDelta(Pow(m.exp(y), n), Pow(m.exp(x), n), delta);
    }
  }

  lemma ExpOfShare(m: RealFns, n: nat, delta: real)
    requires Standard(m) && n > 0 && 0.0 < delta < 1.0
    ensures Pow(m.exp(m.log(1.0 / delta) / n as real), n) * delta == 1.0
  {
    hide Pow;
    var l := m.log(1.0 / delta);
    InversePositive(delta);
    ExpScaled(m, n, l / n as real);
    assert Scaled(n, l / n as real) == l;
    assert (1.0 / delta) * delta == 1.0;
  }

  lemma ExpStrict(m: RealFns, x: real, y: real)
    requires Standard(m) && x < y
    ensures 0.0 < m.exp(x) < m.exp(y)
  {
    assert Total(x, y) == x + y;
  }

  lemma TimesDelta(p: real, q: real, delta: real)
    requires p < q && delta > 0.0
    ensures p * delta < q * delta
  {
    MulPositive(q - p, delta, (q - p) * delta);
    assert (q - p) * delta == q * delta - p * delta;
  }

  /** The conversion finds exactly that epsilon and that order. */
  lemma BestConverts(m: RealFns, orders: seq<int>, rdp: seq<Float>, delta: real, epsilon: Float, order: int)
    requires Standard(m) && ValidOrders(orders) && |rdp| == |orders| && 0.0 < delta < 1.0
    requires epsilon == BestEpsilon(m, orders, rdp, delta, |orders|)
    requires FirstToOffer(m, orders, rdp, delta, |orders|, epsilon, order)
    ensures Converts(m, orders, rdp, delta, epsilon, order)
  {
    BestIsMinimum(m, orders, rdp, delta, |orders|);
    hide Standard, BestEpsilon, Spent;
    if epsilon.Fin? {
      forall i | 0 <= i < |rdp| && rdp[i].Fin?
        ensures Spent(m, epsilon.v - rdp[i].v, orders[i], delta) <= 1.0
        ensures Spent(m, epsilon.v - rdp[i].v, orders[i], delta) == 1.0 <==>
                EpsilonAt(m, orders[i], rdp[i], delta) == epsilon
      {
        assert AtMost(epsilon, EpsilonAt(m, orders[i], rdp[i], delta));
        SpentExactly(m, epsilon.v - rdp[i].v, orders[i], delta);
      }
    }
  }

  method RdpToEpsilon(m: RealFns, orders: seq<int>, rdp: seq<Float>, delta: real)
    returns (r: Outcome<(Float, int)>)
    requires Standard(m)
    ensures r.Ok? <==>
      ValidateOrders(orders).Ok? && |rdp| == |ValidateOrders(orders).value| && 0.0 < delta < 1.0
    ensures r.Ok? ==>
      var grid := ValidateOrders(orders).value;
      && r.value.0 == BestEpsilon(m, grid, rdp, delta, |grid|)
      && FirstToOffer(m, grid, rdp, delta, |grid|, r.value.0, r.value.1)
      && Converts(m, grid, rdp, delta, r.value.0, r.value.1)
  {
    var validated := ValidateOrders(orders);
    if validated.Error? { return Error(validated.message); }
    var grid := validated.value;
    hide Standard, Converts;
    if |grid| != |rdp| { return Error("orders and total_rdp must have the same length."); }
    if !(0.0 < delta < 1.0) { return Error("delta must lie in (0, 1)."); }
    var bestEpsilon := Inf;
    var bestOrder := grid[0];
    for i := 0 to |grid|
      invariant !bestEpsilon.NaN? && bestEpsilon == BestEpsilon(m, grid, rdp, delta, i)
      invariant FirstToOffer(m, grid, rdp, delta, i, bestEpsilon, bestOrder)
    {
      FirstToOfferStep(m, grid, rdp, delta, i, bestEpsilon, bestOrder);
      bestEpsilon, bestOrder := OfferOrder(m, grid[i], rdp[i], delta, bestEpsilon, bestOrder);
    }
    BestConverts(m, grid, rdp, delta, bestEpsilon, bestOrder);
    return Ok((bestEpsilon, bestOrder));
  }

  /** The body of the loop: an order is taken when it offers strictly less. */
  method OfferOrder(m: RealFns, order: int, rdp: Float, delta: real, bestEpsilon: Float, bestOrder: int)
    returns (epsilon: Float, taken: int)
    requires order >= 2 && 0.0 < delta < 1.0 && !bestEpsilon.NaN?
    ensures var next := EpsilonAt(m, order, rdp, delta);
      epsilon == Smaller(bestEpsilon, next) && taken == if AtMost(bestEpsilon, next) then bestOrder else order
  {
    epsilon, taken := bestEpsilon, bestOrder;
    if rdp.Fin? {
      var offered := rdp.v + m.log(1.0 / delta) / (order - 1) as real;
      if bestEpsilon.Inf? || offered < bestEpsilon.v {
        epsilon, taken := Fin(offered), order;
      }
    }
  }

  // ----- the accountant -----

  /** The epsilon that an accountant reports after a number of steps. */
  function Epsilon(m: RealFns, orders: seq<int>, q: real, sigma: real, delta: real, steps: nat): Float
    requires ValidOrders(orders) && sigma >= 0.0 && 0.0 < delta < 1.0
  {
    if steps == 0 || q == 0.0 then Fin(0.0)
    else if sigma == 0.0 then Inf
    else BestEpsilon(m, orders, Curve(m, orders, q, sigma, steps), delta, |orders|)
  }

  /** Sampling more clients, adding less noise or running longer never lowers the reported epsilon, and it is
      never negative. */
  lemma EpsilonMono(m: RealFns, orders: seq<int>, delta: real, q: real, sigma: real, steps: nat,
                    r: real, tau: real, more: nat)
    requires Standard(m) && ValidOrders(orders) && 0.0 < delta < 1.0
    requires 0.0 <= q <= r <= 1.0 && 0.0 <= tau <= sigma && steps <= more
    ensures AtMost(Fin(0.0), Epsilon(m, orders, q, sigma, delta, steps))
    ensures AtMost(Epsilon(m, orders, q, sigma, delta, steps), Epsilon(m, orders, r, tau, delta, more))
  {
    EpsilonNonNegative(m, orders, delta, q, sigma, steps);
    EpsilonNonNegative(m, orders, delta, r, tau, more);
    if steps > 0 && q > 0.0 && tau > 0.0 {
      var a, b := Curve(m, orders, q, sigma, steps), Curve(m, orders, r, tau, more);
      hide RdpPerStep, Curve, BestEpsilon;
      forall i | 0 <= i < |orders| ensures AtMost(a[i], b[i]) {
        CurveMono(m, orders, q, sigma, steps, r, tau, more, i);
      }
      BestMono(m, orders, a, b, delta, |orders|);
    }
  }

  lemma CurveMono(m: RealFns, orders: seq<int>, q: real, sigma: real, steps: nat, r: real, tau: real, more: nat, i: nat)
    requires Standard(m) && ValidOrders(orders) && i < |orders|
    requires 0.0 <= q <= r <= 1.0 && 0.0 < tau <= sigma && steps <= more
    ensures AtMost(Curve(m, orders, q, sigma, steps)[i], Curve(m, orders, r, tau, more)[i])
  {
    RdpBounds(m, orders[i], q, sigma);
    RdpBounds(m, orders[i], r, tau);
    RdpMono(m, orders[i], q, sigma, r, tau);
    MulMono(RdpPerStep(m, orders[i], q, sigma).v, RdpPerStep(m, orders[i], r, tau).v, steps as real, more as real);
  }

  lemma EpsilonNonNegative(m: RealFns, orders: seq<int>, delta: real, q: real, sigma: real, steps: nat)
    requires Standard(m) && ValidOrders(orders) && 0.0 < delta < 1.0 && 0.0 <= q <= 1.0 && sigma >= 0.0
    ensures AtMost(Fin(0.0), Epsilon(m, orders, q, sigma, delta, steps))
    ensures sigma > 0.0 ==> Epsilon(m, orders, q, sigma, delta, steps).Fin?
  {
    if steps > 0 && q > 0.0 && sigma > 0.0 {
      hide Standard, RdpPerStep, Curve, BestEpsilon, EpsilonAt;
      var curve := Curve(m, orders, q, sigma, steps);
      BestIsMinimum(m, orders, curve, delta, |orders|);
      forall i | 0 <= i < |orders| ensures curve[i].Fin? && AtMost(Fin(0.0), EpsilonAt(m, orders[i], curve[i], delta)) {
        OfferNonNegative(m, orders, delta, q, sigma, steps, i);
      }
      assert curve[0].Fin?;
    }
  }

  lemma OfferNonNegative(m: RealFns, orders: seq<int>, delta: real, q: real, sigma: real, steps: nat, i: nat)
    requires Standard(m) && ValidOrders(orders) && i < |orders|
    requires 0.0 < delta < 1.0 && 0.0 <= q <= 1.0 && sigma > 0.0
    ensures Curve(m, orders, q, sigma, steps)[i].Fin?
    ensures AtMost(Fin(0.0), EpsilonAt(m, orders[i], Curve(m, orders, q, sigma, steps)[i], delta))
  {
    hide RdpPerStep, Standard;
    RdpBounds(m, orders[i], q, sigma);
    MulMono(0.0, RdpPerStep(m, orders[i], q, sigma).v, 0.0, steps as real);
    LogShare(m, delta, orders[i]);
  }

  lemma LogShare(m: RealFns, delta: real, order: nat)
    requires Standard(m) && 0.0 < delta < 1.0 && order >= 2
    ensures m.log(1.0 / delta) / (order - 1) as real >= 0.0
  {
    hide Standard;
    InverseAntitone(delta, 1.0);
    LogOne(m);
    LogMono(m, 1.0, 1.0 / delta);
    DivMono(0.0, m.log(1.0 / delta), (order - 1) as real);
  }

  class MomentsAccountant {
    const m: RealFns
    const noiseMultiplier: real
    const sampleRate: real
    const targetDelta: real
    const orders: seq<int>
    var steps: nat
    var rdpPerStep: seq<Float>

    ghost predicate Valid()
      reads this
    {
      && Standard(m) && noiseMultiplier >= 0.0 && 0.0 <= sampleRate <= 1.0 && 0.0 < targetDelta < 1.0
      && ValidOrders(orders)
      && rdpPerStep == Curve(m, orders, sampleRate, noiseMultiplier, 1)
    }

    constructor (m: RealFns, noiseMultiplier: real, sampleRate: real, targetDelta: real, orders: seq<int>,
                 perStep: seq<Float>)
      requires Standard(m) && noiseMultiplier >= 0.0 && 0.0 <= sampleRate <= 1.0 && 0.0 < targetDelta < 1.0
      requires ValidOrders(orders) && perStep == Curve(m, orders, sampleRate, noiseMultiplier, 1)
      ensures Valid() && steps == 0
      ensures this.m == m && this.noiseMultiplier == noiseMultiplier && this.sampleRate == sampleRate
      ensures this.targetDelta == targetDelta && this.orders == orders
    {
      this.m, this.noiseMultiplier, this.sampleRate := m, noiseMultiplier, sampleRate;
      this.targetDelta, this.orders, this.steps, this.rdpPerStep := targetDelta, orders, 0, perStep;
    }

    method Step(numSteps: int) returns (ok: bool)
      requires Valid()
      modifies this`steps
      ensures Valid() && ok == (numSteps >= 0)
      ensures steps == if ok then old(steps) + numSteps else old(steps)
    {
      ok := numSteps >= 0;
      if ok { steps := steps + numSteps; }
    }

    method GetTotalRdp() returns (total: seq<Float>)
      requires Valid()
      ensures |total| == |orders|
      ensures steps == 0 ==> total == seq(|orders|, _ => Fin(0.0))
      ensures steps > 0 ==> total == Curve(m, orders, sampleRate, noiseMultiplier, steps)
    {
      if steps == 0 {
        return seq(|orders|, _ => Fin(0.0));
      }
      total := seq(|rdpPerStep|, i requires 0 <= i < |rdpPerStep| reads this => Times(rdpPerStep[i], steps));
      assert total == Curve(m, orders, sampleRate, noiseMultiplier, steps);
    }

    /** Nothing is spent before the first step or when nobody is sampled, and everything without noise; otherwise the
        conversion decides. */
    method Estimate(delta: Option<real>) returns (r: Outcome<(Float, int, seq<Float>)>)
      requires Valid()
      ensures r.Ok? && steps == 0 ==> r.value.2 == seq(|orders|, _ => Fin(0.0))
      ensures r.Ok? && steps > 0 ==> r.value.2 == Curve(m, orders, sampleRate, noiseMultiplier, steps)
      ensures var effective := if delta.Some? then delta.value else targetDelta;
              && (r.Ok? <==> steps == 0 || sampleRate == 0.0 || noiseMultiplier == 0.0 || 0.0 < effective < 1.0)
              && (r.Ok? && 0.0 < effective < 1.0 ==>
                    r.value.0 == Epsilon(m, orders, sampleRate, noiseMultiplier, effective, steps))
              && (r.Ok? && steps > 0 && sampleRate > 0.0 && noiseMultiplier > 0.0 ==>
                    FirstToOffer(m, orders, r.value.2, effective, |orders|, r.value.0, r.value.1))
      ensures r.Ok? && (steps == 0 || sampleRate == 0.0) ==> r.value.0 == Fin(0.0)
      ensures r.Ok? && (steps == 0 || sampleRate == 0.0 || noiseMultiplier == 0.0) ==> r.value.1 == orders[0]
    {
      hide BestEpsilon, FirstToOffer, Standard, RdpPerStep;
      var effective := if delta.Some? then delta.value else targetDelta;
      var total := GetTotalRdp();
      if steps == 0 || sampleRate == 0.0 {
        return Ok((Fin(0.0), orders[0], total));
      }
      if noiseMultiplier == 0.0 {
        return Ok((Inf, orders[0], total));
      }
      GridOfValid(orders);
      var best := RdpToEpsilon(m, orders, total, effective);
      if best.Error? { return Error(best.message); }
      return Ok((best.value.0, best.value.1, total));
    }
  }

  /** MomentsAccountant.__init__ with its argument checks; `orders or DEFAULT_ORDERS`. */
  method NewAccountant(m: RealFns, noiseMultiplier: real, sampleRate: real, targetDelta: real, orders: seq<int>)
    returns (r: Outcome<MomentsAccountant>)
    requires Standard(m)
    ensures r.Ok? <==> 0.0 <= sampleRate <= 1.0 && noiseMultiplier >= 0.0 && 0.0 < targetDelta < 1.0
                       && Grid(orders).Ok?
    ensures r.Ok? ==> fresh(r.value) && r.value.Valid() && r.value.steps == 0
                      && r.value.m == m && r.value.noiseMultiplier == noiseMultiplier
                      && r.value.sampleRate == sampleRate && r.value.targetDelta == targetDelta
                      && r.value.orders == Grid(orders).value
  {
    if !(0.0 <= sampleRate <= 1.0) { return Error("sample_rate must lie in [0, 1]."); }
    if noiseMultiplier < 0.0 { return Error("noise_multiplier must be >= 0."); }
    if !(0.0 < targetDelta < 1.0) { return Error("target_delta must lie in (0, 1)."); }
    var validated := Grid(orders);
    if validated.Error? { return Error(validated.message); }
    GridOfValid(validated.value);
    var curve := ComputeRdp(m, sampleRate, noiseMultiplier, 1, validated.value);
    var accountant := new MomentsAccountant(m, noiseMultiplier, sampleRate, targetDelta, validated.value, curve.value);
    return Ok(accountant);
  }

  // ----- composition -----

  /** The sum of column i over the first n curves. */
  function ColumnSum(curves: seq<seq<Float>>, i: nat, n: nat): Float
    requires n <= |curves| && forall c :: c in curves ==> i < |c|
  {
    if n == 0 then Fin(0.0) else Add(ColumnSum(curves, i, n - 1), curves[n - 1][i])
  }

  method ComposeRdpCurves(curves: seq<seq<Float>>, width: nat) returns (total: seq<Float>)
    requires forall c :: c in curves ==> |c| == width
    ensures curves == [] ==> total == []
    ensures curves != [] ==> |total| == width
    ensures curves != [] ==> forall i :: 0 <= i < width ==> total[i] == ColumnSum(curves, i, |curves|)
  {
    if curves == [] { return []; }
    total := seq(width, _ => Fin(0.0));
    for n := 0 to |curves|
      invariant |total| == width
      invariant forall i :: 0 <= i < width ==> total[i] == ColumnSum(curves, i, n)
    {
      ghost var before := total;
      total := seq(width, i requires 0 <= i < width => Add(total[i], curves[n][i]));
      assert forall i :: 0 <= i < width ==> total[i] == Add(before[i], curves[n][i]);
    }
  }
}
