/** Noise calibration by bisection and same-adjacency composition. */
module PrivacyBudget {
  import opened RealMath
  import opened SortedInts
  import opened DpAccountant

  predicate Meets(epsilon: Float, target: real) {
    AtMost(epsilon, Fin(target))
  }

  function Min(a: real, b: real): real { if a <= b then a else b }

  function Max(a: real, b: real): real { if a >= b then a else b }

  /** Halves the width n times. */
  function Halved(width: real, n: nat): real {
    if n == 0 then width else Halved(width, n - 1) / 2.0
  }

  /** Less noise never reports a smaller epsilon. */
  ghost predicate Antitone(eps: real -> Float) {
    forall s, t {:trigger eps(s), eps(t)} :: 0.0 < s <= t ==> AtMost(eps(t), eps(s))
  }

  /** What the search promises about the sigma it returns: it meets the target, and it stopped for one of
      three reasons, leaving a bracket [low, sigma] whose lower end is the minimum or misses the target. */
  ghost predicate SearchResult(eps: real -> Float, target: real, tolerance: real, least: real, most: real,
                               maxIterations: nat, low: real, sigma: real)
  {
    && least <= low <= sigma <= most
    && Meets(eps(sigma), target) && eps(sigma).Fin?
    && (low == least || !Meets(eps(low), target))
    && (|| Abs(target - eps(sigma).v) <= tolerance
        || sigma - low <= 0.000000000001 * Max(1.0, sigma)
        || sigma - low <= Halved(most - least, maxIterations))
  }

  /** The code's search, for any epsilon function: doubling until feasible, then bisection. */
  method Search(eps: real -> Float, target: real, tolerance: real, least: real, most: real, maxIterations: nat)
    returns (r: Outcome<real>, ghost low: real)
    requires 0.0 < least < most && tolerance > 0.0 && maxIterations > 0
    ensures r.Ok? ==> SearchResult(eps, target, tolerance, least, most, maxIterations, low, r.value)
    ensures r.Error? ==> !Meets(eps(most), target)
  {
    low := least;
    var high := Min(most, Max(1.0, least * 2.0));
    while !Meets(eps(high), target) && high < most
      invariant least <= high <= most
      invariant high < most ==> high >= 1.0
      decreases if high < most then 1 + (most - high).Floor else 0
    {
      high := Min(most, high * 2.0);
    }
    var highEpsilon := eps(high);
    if !Meets(highEpsilon, target) {
      return Error("target_epsilon is not reachable within max_noise_multiplier"), low;
    }
    var lower := least;
    var n := 0;
    while n < maxIterations
      invariant n <= maxIterations
      invariant low == lower && least <= lower <= high <= most
      invariant highEpsilon == eps(high) && Meets(highEpsilon, target)
      invariant lower == least || !Meets(eps(lower), target)
      invariant high - lower <= Halved(most - least, n)
    {
      var mid := (lower + high) / 2.0;
      var midEpsilon := eps(mid);
      if Meets(midEpsilon, target) {
        high := mid;
        highEpsilon := midEpsilon;
      } else {
        lower := mid;
      }
      low := lower;
      n := n + 1;
      if Abs(target - highEpsilon.v) <= tolerance {
        break;
      }
      if high - lower <= 0.000000000001 * Max(1.0, high) {
        break;
      }
    }
    return Ok(high), low;
  }

  /** For an antitone epsilon function the result is close to the target epsilon, or every noise level above the
      minimum and below the bracket misses the target, so sigma is within the bracket of the smallest feasible one. */
  lemma SearchIsTight(eps: real -> Float, target: real, tolerance: real, least: real, most: real,
                      maxIterations: nat, low: real, sigma: real)
    requires 0.0 < least < most && Antitone(eps)
    requires SearchResult(eps, target, tolerance, least, most, maxIterations, low, sigma)
    ensures var width := Max(0.000000000001 * Max(1.0, sigma), Halved(most - least, maxIterations));
            || Abs(target - eps(sigma).v) <= tolerance
            || forall s :: least < s <= sigma - width ==> !Meets(eps(s), target)
    ensures Halved(most - least, maxIterations) * Pow(2.0, maxIterations) == most - least
  {
    HalvedShrinks(most - least, maxIterations);
    if Abs(target - eps(sigma).v) > tolerance {
      var width := Max(0.000000000001 * Max(1.0, sigma), Halved(most - least, maxIterations));
      forall s | least < s <= sigma - width ensures !Meets(eps(s), target) {
        assert s <= low;
        assert AtMost(eps(low), eps(s));
      }
    }
  }

  /** An antitone epsilon function is reachable exactly when the largest noise allowed meets the target. */
  lemma UnreachableMeansNone(eps: real -> Float, target: real, most: real)
    requires most > 0.0 && Antitone(eps) && !Meets(eps(most), target)
    ensures forall s :: 0.0 < s <= most ==> !Meets(eps(s), target)
  {
    forall s | 0.0 < s <= most ensures !Meets(eps(s), target) {
      assert AtMost(eps(most), eps(s));
    }
  }

  lemma {:induction false} HalvedShrinks(width: real, n: nat)
    requires width >= 0.0
    ensures 0.0 <= Halved(width, n) && Halved(width, n) * Pow(2.0, n) == width
  {
    if n > 0 {
      HalvedShrinks(width, n - 1);
      var h, p := Halved(width, n - 1), Pow(2.0, n - 1);
      assert (h / 2.0) * (2.0 * p) == h * p;
    }
  }

  datatype Calibration = Calibration(targetEpsilon: real, achievedEpsilon: Float, noiseMultiplier: real,
                                     sampleRate: real, steps: nat, delta: real)

  /** The real accountant's epsilon as a function of the noise. */
  function EpsilonAtNoise(m: RealFns, orders: seq<int>, q: real, delta: real, steps: nat): (eps: real -> Float)
    requires ValidOrders(orders) && 0.0 < delta < 1.0
  {
    s => if s >= 0.0 then Epsilon(m, orders, q, s, delta, steps) else NaN
  }

  lemma AccountantIsAntitone(m: RealFns, orders: seq<int>, q: real, delta: real, steps: nat)
    requires Standard(m) && ValidOrders(orders) && 0.0 < delta < 1.0 && 0.0 <= q <= 1.0
    ensures Antitone(EpsilonAtNoise(m, orders, q, delta, steps))
  {
    var eps := EpsilonAtNoise(m, orders, q, delta, steps);
    forall s, t {:trigger eps(s), eps(t)} | 0.0 < s <= t ensures AtMost(eps(t), eps(s)) {
      EpsilonMono(m, orders, delta, q, t, steps, q, s, steps);
    }
  }

  /** calibrate_noise_multiplier. The result reports the epsilon the accountant gives at the returned noise, that
      epsilon meets the target, and the noise is tight in the sense of SearchIsTight. It fails only on bad
      arguments or when no noise up to the maximum meets the target. */
  method CalibrateNoiseMultiplier(m: RealFns, target: real, q: real, steps: int, delta: real, orders: seq<int>,
                                  tolerance: real, least: real, most: real, maxIterations: int)
    returns (r: Outcome<Calibration>)
    requires Standard(m)
    ensures r.Ok? ==>
      && target > 0.0 && 0.0 <= q <= 1.0 && steps >= 0 && 0.0 < delta < 1.0 && 0.0 < least < most
      && tolerance > 0.0 && maxIterations > 0
      && ValidateOrders(orders).Ok?
      && r.value.noiseMultiplier >= 0.0
      && r.value.achievedEpsilon
         == Epsilon(m, ValidateOrders(orders).value, q, r.value.noiseMultiplier, delta, steps)
      && Meets(r.value.achievedEpsilon, target)
      && r.value.targetEpsilon == target && r.value.sampleRate == q && r.value.steps == steps && r.value.delta == delta
    ensures r.Ok? && (steps == 0 || q == 0.0) ==> r.value.noiseMultiplier == 0.0
    ensures r.Ok? && steps > 0 && q > 0.0 ==>
      var sigma := r.value.noiseMultiplier;
      var width := Max(0.000000000001 * Max(1.0, sigma), Halved(most - least, maxIterations));
      && least <= sigma <= most
      && (|| Abs(target - r.value.achievedEpsilon.v) <= tolerance
          || forall s :: least < s <= sigma - width ==>
               !Meets(Epsilon(m, ValidateOrders(orders).value, q, s, delta, steps), target))
    ensures r.Error? && target > 0.0 && 0.0 <= q <= 1.0 && steps >= 0 && 0.0 < delta < 1.0 && tolerance > 0.0
            && 0.0 < least < most && maxIterations > 0 && ValidateOrders(orders).Ok? ==>
      && steps > 0 && q > 0.0
      && forall s :: 0.0 < s <= most ==> !Meets(Epsilon(m, ValidateOrders(orders).value, q, s, delta, steps), target)
  {
    if target <= 0.0 { return Error("target_epsilon must be > 0."); }
    if !(0.0 <= q <= 1.0) { return Error("sample_rate must lie in [0, 1]."); }
    if steps < 0 { return Error("steps must be >= 0."); }
    if !(0.0 < delta < 1.0) { return Error("delta must lie in (0, 1)."); }
    if tolerance <= 0.0 { return Error("epsilon_tolerance must be > 0."); }
    if least <= 0.0 { return Error("min_noise_multiplier must be > 0."); }
    if most <= least { return Error("max_noise_multiplier must exceed min_noise_multiplier."); }
    if maxIterations <= 0 { return Error("max_iterations must be > 0."); }
    var normalized := ValidateOrders(orders);
    if normalized.Error? { return Error(normalized.message); }
    var grid := normalized.value;
    if steps == 0 || q == 0.0 {
      return Ok(Calibration(target, Fin(0.0), 0.0, q, steps, delta));
    }
    var eps := EpsilonAtNoise(m, grid, q, delta, steps);
    AccountantIsAntitone(m, grid, q, delta, steps);
    var found, low := Search(eps, target, tolerance, least, most, maxIterations);
    if found.Error? {
      UnreachableMeansNone(eps, target, most);
      forall s | 0.0 < s <= most ensures !Meets(Epsilon(m, grid, q, s, delta, steps), target) {
        assert !Meets(eps(s), target);
      }
      return Error(found.message);
    }
    SearchIsTight(eps, target, tolerance, least, most, maxIterations, low, found.value);
    assert forall s :: s > 0.0 ==> eps(s) == Epsilon(m, grid, q, s, delta, steps);
    return Ok(Calibration(target, eps(found.value), found.value, q, steps, delta));
  }

  // ----- composition -----

  datatype Mechanism = Mechanism(name: string, adjacency: string, sampleRate: real, noiseMultiplier: real, steps: int)

  predicate ValidMechanism(x: Mechanism) {
    x.steps >= 0 && 0.0 <= x.sampleRate <= 1.0 && x.noiseMultiplier >= 0.0
  }

  ghost predicate ValidMechanisms(mechanisms: seq<Mechanism>) {
    forall i :: 0 <= i < |mechanisms| ==> ValidMechanism(mechanisms[i])
  }

  /** The curve of one mechanism at one order. */
  function Contribution(m: RealFns, order: int, x: Mechanism): Float
    requires order >= 2 && ValidMechanism(x)
  {
    Times(RdpPerStep(m, order, x.sampleRate, x.noiseMultiplier), x.steps)
  }

  /** The composed curve of the first n mechanisms at one order. */
  function Composed(m: RealFns, order: int, mechanisms: seq<Mechanism>, n: nat): Float
    requires order >= 2 && n <= |mechanisms| && ValidMechanisms(mechanisms)
  {
    if n == 0 then Fin(0.0)
    else Add(Composed(m, order, mechanisms, n - 1), Contribution(m, order, mechanisms[n - 1]))
  }

  /** A composed curve is finite, at every order alike, exactly when no mechanism samples anyone without noise.
      Its number of steps does not matter: zero steps of such a mechanism still give nan. */
  lemma {:induction false} ComposedFinite(m: RealFns, order: int, mechanisms: seq<Mechanism>, n: nat)
    requires Standard(m) && order >= 2 && n <= |mechanisms| && ValidMechanisms(mechanisms)
    ensures Composed(m, order, mechanisms, n).Fin? <==>
      forall i :: 0 <= i < n ==> mechanisms[i].sampleRate == 0.0 || mechanisms[i].noiseMultiplier > 0.0
    ensures Composed(m, order, mechanisms, n).Fin? ==> Composed(m, order, mechanisms, n).v >= 0.0
  {
    hide RdpPerStep, Standard, Contribution;
    if n > 0 {
      ComposedFinite(m, order, mechanisms, n - 1);
      assert ValidMechanism(mechanisms[n - 1]);
      ContributionFinite(m, order, mechanisms[n - 1]);
    }
  }

  lemma ContributionFinite(m: RealFns, order: int, x: Mechanism)
    requires Standard(m) && order >= 2 && ValidMechanism(x)
    ensures Contribution(m, order, x).Fin? <==> x.sampleRate == 0.0 || x.noiseMultiplier > 0.0
    ensures Contribution(m, order, x).Fin? ==> Contribution(m, order, x).v >= 0.0
  {
    hide Standard;
    if x.sampleRate > 0.0 && x.noiseMultiplier > 0.0 {
      hide RdpPerStep;
      RdpBounds(m, order, x.sampleRate, x.noiseMultiplier);
      MulMono(0.0, RdpPerStep(m, order, x.sampleRate, x.noiseMultiplier).v, 0.0, x.steps as real);
    }
  }

  /** Running a mechanism for a steps and then for b more composes to running it for a + b, except that a noiseless
      mechanism gives nan instead of inf when exactly one part has no steps. */
  lemma ComposeSplits(m: RealFns, order: int, x: Mechanism, a: nat, b: nat)
    requires Standard(m) && order >= 2 && ValidMechanism(x)
    ensures var step := RdpPerStep(m, order, x.sampleRate, x.noiseMultiplier);
            Add(Times(step, a), Times(step, b)) == Times(step, a + b)
            <==> x.sampleRate == 0.0 || x.noiseMultiplier > 0.0 || (a == 0 <==> b == 0)
  {
    var step := RdpPerStep(m, order, x.sampleRate, x.noiseMultiplier);
    if step.Fin? {
      assert (a + b) as real == a as real + b as real;
      assert step.v * (a + b) as real == step.v * a as real + step.v * b as real;
    }
  }

  datatype Composition = Composition(epsilon: Float, delta: real, optimalOrder: int, orders: seq<int>,
                                     totalRdp: seq<Float>, names: seq<string>, adjacency: string)

  /** What Python's strip removes. */
  predicate IsSpace(c: char) {
    var u := c as int;
    || 0x09 <= u <= 0x0D || 0x1C <= u <= 0x20 || u == 0x85 || u == 0xA0 || u == 0x1680 || 0x2000 <= u <= 0x200A
    || u == 0x2028 || u == 0x2029 || u == 0x202F || u == 0x205F || u == 0x3000
  }

  predicate Blank(s: string) {
    forall c :: c in s ==> IsSpace(c)
  }

  /** Every mechanism must share one non-empty adjacency and have a non-blank name and valid parameters. */
  ghost predicate Composable(mechanisms: seq<Mechanism>) {
    && mechanisms != [] && mechanisms[0].adjacency != ""
    && forall i :: 0 <= i < |mechanisms| ==>
         && mechanisms[i].adjacency == mechanisms[0].adjacency && !Blank(mechanisms[i].name)
         && ValidMechanism(mechanisms[i])
  }

  method CheckMechanisms(mechanisms: seq<Mechanism>) returns (r: Outcome<string>)
    ensures r.Ok? <==> Composable(mechanisms)
    ensures r.Ok? ==> r.value == mechanisms[0].adjacency
  {
    if mechanisms == [] { return Error("At least one mechanism is required."); }
    var adjacency := mechanisms[0].adjacency;
    if adjacency == "" { return Error("Mechanism adjacency must be non-empty."); }
    for i := 0 to |mechanisms|
      invariant forall j :: 0 <= j < i ==>
        mechanisms[j].adjacency == adjacency && !Blank(mechanisms[j].name) && ValidMechanism(mechanisms[j])
    {
      var x := mechanisms[i];
      if x.adjacency != adjacency { return Error("Cannot compose mechanisms with different neighboring relations"); }
      if Blank(x.name) { return Error("Mechanism name must be non-empty."); }
      if x.steps < 0 { return Error("steps must be >= 0."); }
      if !(0.0 <= x.sampleRate <= 1.0) { return Error("sample_rate must lie in [0, 1]."); }
      if x.noiseMultiplier < 0.0 { return Error("noise_multiplier must be >= 0."); }
    }
    return Ok(adjacency);
  }

  method ComposedCurve(m: RealFns, mechanisms: seq<Mechanism>, grid: seq<int>) returns (total: seq<Float>)
    requires Standard(m) && ValidOrders(grid) && mechanisms != [] && ValidMechanisms(mechanisms)
    ensures |total| == |grid|
    ensures forall i :: 0 <= i < |grid| ==> total[i] == Composed(m, grid[i], mechanisms, |mechanisms|)
  {
    hide RdpPerStep, Curve, Composed, Composable, CurvesOf;
    GridOfValid(grid);
    var curves := [];
    NoCurves(m, grid, mechanisms);
    for i := 0 to |mechanisms|
      invariant |curves| == i && CurvesOf(m, grid, mechanisms, curves, i)
    {
      assert ValidMechanism(mechanisms[i]);
      var curve := ComputeRdp(m, mechanisms[i].sampleRate, mechanisms[i].noiseMultiplier, mechanisms[i].steps, grid);
      OneMoreCurve(m, grid, mechanisms, curves, curve.value);
      curves := curves + [curve.value];
    }
    CurvesCompose(m, grid, mechanisms, curves);
    total := ComposeRdpCurves(curves, |grid|);
  }

  /** The curves of the first n mechanisms. */
  ghost predicate CurvesOf(m: RealFns, grid: seq<int>, mechanisms: seq<Mechanism>, curves: seq<seq<Float>>, n: nat)
    requires Standard(m) && ValidOrders(grid)
  {
    |curves| == n <= |mechanisms| && forall j :: 0 <= j < n ==>
      ValidMechanism(mechanisms[j]) &&
      curves[j] == Curve(m, grid, mechanisms[j].sampleRate, mechanisms[j].noiseMultiplier, mechanisms[j].steps)
  }

  lemma NoCurves(m: RealFns, grid: seq<int>, mechanisms: seq<Mechanism>)
    requires Standard(m) && ValidOrders(grid)
    ensures CurvesOf(m, grid, mechanisms, [], 0)
  {}

  lemma OneMoreCurve(m: RealFns, grid: seq<int>, mechanisms: seq<Mechanism>, curves: seq<seq<Float>>, curve: seq<Float>)
    requires Standard(m) && ValidOrders(grid) && CurvesOf(m, grid, mechanisms, curves, |curves|)
    requires |curves| < |mechanisms| && ValidMechanism(mechanisms[|curves|])
    requires var x := mechanisms[|curves|]; curve == Curve(m, grid, x.sampleRate, x.noiseMultiplier, x.steps)
    ensures CurvesOf(m, grid, mechanisms, curves + [curve], |curves| + 1)
  {
    hide RdpPerStep;
  }

  lemma CurvesCompose(m: RealFns, grid: seq<int>, mechanisms: seq<Mechanism>, curves: seq<seq<Float>>)
    requires Standard(m) && ValidOrders(grid) && ValidMechanisms(mechanisms)
    requires CurvesOf(m, grid, mechanisms, curves, |mechanisms|)
    ensures |curves| == |mechanisms| && forall c :: c in curves ==> |c| == |grid|
    ensures forall i :: 0 <= i < |grid| ==>
      && (forall c :: c in curves ==> i < |c|)
      && ColumnSum(curves, i, |curves|) == Composed(m, grid[i], mechanisms, |mechanisms|)
  {
    forall i | 0 <= i < |grid|
      ensures (forall c :: c in curves ==> i < |c|)
              && ColumnSum(curves, i, |curves|) == Composed(m, grid[i], mechanisms, |mechanisms|)
    {
      ColumnIsComposed(m, grid, mechanisms, curves, i, |mechanisms|);
    }
  }

  method ComposeSameAdjacencyRdp(m: RealFns, mechanisms: seq<Mechanism>, delta: real, orders: seq<int>)
    returns (r: Outcome<Composition>)
    requires Standard(m)
    ensures r.Ok? <==> Composable(mechanisms) && 0.0 < delta < 1.0 && ValidateOrders(orders).Ok?
    ensures r.Ok? ==>
      && r.value.orders == ValidateOrders(orders).value && |r.value.totalRdp| == |r.value.orders|
      && (forall i :: 0 <= i < |r.value.orders| ==>
            r.value.totalRdp[i] == Composed(m, r.value.orders[i], mechanisms, |mechanisms|))
      && r.value.epsilon == BestEpsilon(m, r.value.orders, r.value.totalRdp, delta, |r.value.orders|)
      && FirstToOffer(m, r.value.orders, r.value.totalRdp, delta, |r.value.orders|, r.value.epsilon,
                      r.value.optimalOrder)
      && r.value.adjacency == mechanisms[0].adjacency && |r.value.names| == |mechanisms|
      && forall i :: 0 <= i < |mechanisms| ==> r.value.names[i] == mechanisms[i].name
    ensures r.Ok? ==>
      (r.value.epsilon.Fin? <==> forall i :: 0 <= i < |mechanisms| ==>
         mechanisms[i].sampleRate == 0.0 || mechanisms[i].noiseMultiplier > 0.0)
  {
    hide Standard, Converts, RdpPerStep, FirstToOffer, BestEpsilon, Composed, EpsilonAt;
    var adjacency := CheckMechanisms(mechanisms);
    if !(0.0 < delta < 1.0) { return Error("delta must lie in (0, 1)."); }
    if adjacency.Error? { return Error(adjacency.message); }
    var normalized := ValidateOrders(orders);
    if normalized.Error? { return Error(normalized.message); }
    var grid := normalized.value;
    var total := ComposedCurve(m, mechanisms, grid);
    BestIsMinimum(m, grid, total, delta, |grid|);
    forall i | 0 <= i < |grid|
      ensures total[i].Fin? <==> forall j :: 0 <= j < |mechanisms| ==>
                mechanisms[j].sampleRate == 0.0 || mechanisms[j].noiseMultiplier > 0.0
    {
      ComposedFinite(m, grid[i], mechanisms, |mechanisms|);
    }
    GridOfValid(grid);
    var best := RdpToEpsilon(m, grid, total, delta);
    return Ok(Composition(best.value.0, delta, best.value.1, grid, total,
                          seq(|mechanisms|, i requires 0 <= i < |mechanisms| => mechanisms[i].name), adjacency.value));
  }

  lemma {:induction false} ColumnIsComposed(m: RealFns, grid: seq<int>, mechanisms: seq<Mechanism>,
                                            curves: seq<seq<Float>>, i: nat, n: nat)
    requires ValidOrders(grid) && i < |grid| && n <= |curves| == |mechanisms| && ValidMechanisms(mechanisms)
    requires forall j :: 0 <= j < |curves| ==>
      ValidMechanism(mechanisms[j]) &&
      curves[j] == Curve(m, grid, mechanisms[j].sampleRate, mechanisms[j].noiseMultiplier, mechanisms[j].steps)
    ensures forall c :: c in curves ==> i < |c|
    ensures ColumnSum(curves, i, n) == Composed(m, grid[i], mechanisms, n)
  {
    if n > 0 {
      ColumnIsComposed(m, grid, mechanisms, curves, i, n - 1);
    }
  }
}
