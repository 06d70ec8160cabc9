/** The aggregation server: FedAvg/FedProx averaging with central noise, SCAFFOLD control variates, and the
    state that a checkpoint exports. */
module FederatedServer {
  import opened RealMath
  import opened SortedInts
  import opened Vectors

  datatype Algorithm = FedAvg | FedProx | Scaffold

  datatype Config = Config(algorithm: Algorithm, numClients: nat, serverLr: real, weightBySamples: bool,
                           dpEnabled: bool, noiseMultiplier: real, updateClipNorm: real)

  /** The combinations Server.__init__ accepts. */
  predicate Supported(cfg: Config) {
    cfg.algorithm == Scaffold ==> !cfg.weightBySamples && !cfg.dpEnabled
  }

  /** The state of a random generator. */
  datatype Rng = Rng(words: seq<int>)

  /** torch.normal: a vector drawn from a generator state, and the state it leaves. */
  type Normal = (Rng, real, nat) -> (Vec, Rng)

  ghost predicate ProperNormal(normal: Normal) {
    forall g, std, n :: |normal(g, std, n).0| == n
  }

  datatype ClientResult = ClientResult(clientId: nat, delta: Vec, numSamples: nat, deltaC: Vec, newCLocal: Vec)

  datatype State = State(model: Vec, cGlobal: Vec, cLocals: seq<Vec>, roundCount: nat)

  /** The shape of a server state. */
  ghost predicate WellFormed(cfg: Config, s: State) {
    if cfg.algorithm == Scaffold then
      && |s.cGlobal| == |s.model| && |s.cLocals| == cfg.numClients
      && forall i :: 0 <= i < |s.cLocals| ==> |s.cLocals[i]| == |s.model|
    else s.cGlobal == [] && s.cLocals == []
  }

  /** Results that fit a model of dimension d; SCAFFOLD results carry control variates. */
  ghost predicate Fits(cfg: Config, results: seq<ClientResult>, d: nat) {
    forall i :: 0 <= i < |results| ==>
      && |results[i].delta| == d
      && (cfg.algorithm == Scaffold ==>
            |results[i].deltaC| == d && |results[i].newCLocal| == d && results[i].clientId < cfg.numClients)
  }

  // ----- reference sums -----

  function SumDeltas(results: seq<ClientResult>, d: nat): (v: Vec)
    requires forall i :: 0 <= i < |results| ==> |results[i].delta| == d
    ensures |v| == d
  {
    if results == [] then Zero(d)
    else Plus(SumDeltas(results[..|results| - 1], d), results[|results| - 1].delta)
  }

  function TotalSamples(results: seq<ClientResult>): nat {
    if results == [] then 0 else TotalSamples(results[..|results| - 1]) + results[|results| - 1].numSamples
  }

  function Share(n: nat, total: nat): (w: real)
    requires total > 0
    ensures w >= 0.0 && (n == 0 ==> w == 0.0)
  {
    n as real / total as real
  }

  /** The sum of the deltas, each weighted by its share of a sample total. */
  function WeightedDeltas(results: seq<ClientResult>, total: nat, d: nat): (v: Vec)
    requires total > 0 && forall i :: 0 <= i < |results| ==> |results[i].delta| == d
    ensures |v| == d
  {
    if results == [] then Zero(d)
    else
      var last := results[|results| - 1];
      Plus(WeightedDeltas(results[..|results| - 1], total, d),
           Scale(Share(last.numSamples, total), last.delta))
  }

  function MeanOver(n: nat, v: Vec): (u: Vec)
    requires n > 0
    ensures |u| == |v|
  {
    Scale(1.0 / n as real, v)
  }

  function ControlShare(results: seq<ClientResult>, cohort: nat, d: nat): (v: Vec)
    requires cohort > 0 && forall i :: 0 <= i < |results| ==> |results[i].deltaC| == d
    ensures |v| == d
  {
    if results == [] then Zero(d)
    else Plus(ControlShare(results[..|results| - 1], cohort, d), MeanOver(cohort, results[|results| - 1].deltaC))
  }

  /** The local control variates after the results replaced theirs, in order. */
  function ReplaceLocals(cLocals: seq<Vec>, results: seq<ClientResult>): (c: seq<Vec>)
    requires forall i :: 0 <= i < |results| ==> results[i].clientId < |cLocals|
    ensures |c| == |cLocals|
  {
    if results == [] then cLocals
    else
      var last := results[|results| - 1];
      ReplaceLocals(cLocals, results[..|results| - 1])[last.clientId := last.newCLocal]
  }

  function ApplyDelta(model: Vec, lr: real, delta: Vec): (v: Vec)
    requires |model| == |delta|
    ensures |v| == |model|
  {
    Plus(model, Scale(lr, delta))
  }

  datatype Aggregated = Aggregated(state: State, generator: Option<Rng>, noise: Vec)

  function NoiseStd(cfg: Config): real { cfg.noiseMultiplier * cfg.updateClipNorm }

  /** Noise is drawn for a non-empty uniformly weighted cohort under DP. */
  predicate Draws(cfg: Config, results: seq<ClientResult>) {
    cfg.dpEnabled && !cfg.weightBySamples && results != []
  }

  function NoiseFor(cfg: Config, normal: Normal, generator: Option<Rng>, results: seq<ClientResult>, d: nat)
    : (r: (Vec, Option<Rng>))
    requires ProperNormal(normal) && (cfg.dpEnabled ==> generator.Some?)
    ensures |r.0| == d && (generator.Some? <==> r.1.Some?)
  {
    if Draws(cfg, results) then
      var r := normal(generator.value, NoiseStd(cfg), d);
      (r.0, Some(r.1))
    else (Zero(d), generator)
  }

  /** The aggregate_noise_norm a round reports. */
  function NoiseReport(m: RealFns, cfg: Config, results: seq<ClientResult>, noise: Vec): real {
    if Draws(cfg, results) then Norm(m, noise) else 0.0
  }

  /** Averaging by sample count divides by a zero total. */
  predicate DividesByZero(cfg: Config, results: seq<ClientResult>) {
    cfg.weightBySamples && results != [] && TotalSamples(results) == 0
  }

  function NextModel(cfg: Config, model: Vec, results: seq<ClientResult>, noise: Vec): (v: Vec)
    requires Fits(cfg, results, |model|) && |noise| == |model| && !DividesByZero(cfg, results)
    ensures |v| == |model|
  {
    if results == [] then model
    else if cfg.weightBySamples then
      ApplyDelta(model, cfg.serverLr, WeightedDeltas(results, TotalSamples(results), |model|))
    else ApplyDelta(model, cfg.serverLr, MeanOver(|results|, Plus(SumDeltas(results, |model|), noise)))
  }

  function NextGlobal(cfg: Config, cGlobal: Vec, results: seq<ClientResult>): (v: Vec)
    requires cfg.algorithm == Scaffold ==> Fits(cfg, results, |cGlobal|)
    ensures |v| == |cGlobal|
  {
    if cfg.algorithm != Scaffold || results == [] then cGlobal
    else
      assert results[0].clientId < cfg.numClients;
      Plus(cGlobal, Scale(Share(|results|, cfg.numClients), ControlShare(results, |results|, |cGlobal|)))
  }

  function NextLocals(cfg: Config, cLocals: seq<Vec>, results: seq<ClientResult>): (c: seq<Vec>)
    requires cfg.algorithm == Scaffold ==> forall i :: 0 <= i < |results| ==> results[i].clientId < |cLocals|
    ensures |c| == |cLocals|
  {
    if cfg.algorithm != Scaffold then cLocals else ReplaceLocals(cLocals, results)
  }

  /** What one aggregation must compute; dividing by a zero sample total is the only error. */
  function Aggregate(cfg: Config, normal: Normal, s: State, generator: Option<Rng>, results: seq<ClientResult>)
    : (r: Outcome<Aggregated>)
    requires Supported(cfg) && ProperNormal(normal) && WellFormed(cfg, s) && Fits(cfg, results, |s.model|)
    requires cfg.dpEnabled ==> generator.Some?
    ensures r.Ok? ==> WellFormed(cfg, r.value.state) && |r.value.state.model| == |s.model|
                      && r.value.state.roundCount == s.roundCount + 1
                      && (generator.Some? <==> r.value.generator.Some?)
    ensures r.Error? <==> DividesByZero(cfg, results)
  {
    if DividesByZero(cfg, results) then Error("division by zero")
    else
      var drawn := NoiseFor(cfg, normal, generator, results, |s.model|);
      if cfg.algorithm == Scaffold then ReplaceLocalsShape(s.cLocals, results, |s.model|);
        Ok(Aggregated(State(NextModel(cfg, s.model, results, drawn.0), NextGlobal(cfg, s.cGlobal, results),
                            NextLocals(cfg, s.cLocals, results), s.roundCount + 1), drawn.1, drawn.0))
      else
        Ok(Aggregated(State(NextModel(cfg, s.model, results, drawn.0), s.cGlobal, s.cLocals, s.roundCount + 1),
                      drawn.1, drawn.0))
  }

  lemma {:induction false} ReplaceLocalsShape(cLocals: seq<Vec>, results: seq<ClientResult>, d: nat)
    requires forall i :: 0 <= i < |cLocals| ==> |cLocals[i]| == d
    requires forall i :: 0 <= i < |results| ==> results[i].clientId < |cLocals| && |results[i].newCLocal| == d
    ensures forall i :: 0 <= i < |cLocals| ==> |ReplaceLocals(cLocals, results)[i]| == d
  {
    if results != [] { ReplaceLocalsShape(cLocals, results[..|results| - 1], d); }
  }

  // ----- averaging: sensitivity and hull -----

  /** Every update within the clip norm, as clip_state_update leaves it. */
  ghost predicate AllClipped(results: seq<ClientResult>, c: real) {
    forall i :: 0 <= i < |results| ==> NormSq(results[i].delta) <= c * c
  }

  /** The sum over n clipped updates has norm at most n C. */
  lemma {:induction false} SumNorm(results: seq<ClientResult>, d: nat, c: real)
    requires c >= 0.0 && AllClipped(results, c)
    requires forall i :: 0 <= i < |results| ==> |results[i].delta| == d
    ensures NormSq(SumDeltas(results, d)) <= Mul(|results| as real, c) * Mul(|results| as real, c)
  {
    if results == [] {
      DotZero(Zero(d), Zero(d));
    } else {
      var n := |results| - 1;
      SumNorm(results[..n], d, c);
      var s := Mul(n as real, c);
      assert s >= 0.0 by { MulMono(0.0, n as real, 0.0, c); }
      Triangle(SumDeltas(results[..n], d), results[n].delta, s, c);
      MulAdd(n as real, 1.0, c);
      assert Mul(1.0, c) == c && |results| as real == n as real + 1.0;
    }
  }

  /** The noise-free mean of a non-empty clipped cohort has norm at most C. */
  lemma MeanNorm(results: seq<ClientResult>, d: nat, c: real)
    requires results != [] && c >= 0.0 && AllClipped(results, c)
    requires forall i :: 0 <= i < |results| ==> |results[i].delta| == d
    ensures NormSq(MeanOver(|results|, SumDeltas(results, d))) <= c * c
  {
    SumNorm(results, d, c);
    MeanNormStep(|results|, SumDeltas(results, d), c);
  }

  lemma MeanNormStep(n: nat, v: Vec, c: real)
    requires n > 0 && NormSq(v) <= Mul(n as real, c) * Mul(n as real, c)
    ensures NormSq(MeanOver(n, v)) <= c * c
  {
    var k := 1.0 / n as real;
    NormSqScale(k, v);
    ScaledBound(k, n as real, c, Mul(n as real, c), NormSq(v), NormSq(MeanOver(n, v)));
  }

  lemma ScaledBound(k: real, n: real, c: real, nc: real, s: real, t: real)
    requires n > 0.0 && k == 1.0 / n && nc == Mul(n, c) && s <= nc * nc && t == Mul(k * k, s)
    ensures t <= c * c
  {
    assert k * n == 1.0;
    assert k * nc == c;
    var q := k * k;
    if k != 0.0 { SquarePositive(k, q); }
    var gap := nc * nc - s;
    MulMono(0.0, q, 0.0, gap);
    assert q * gap == (k * nc) * (k * nc) - t;
  }

  lemma {:induction false} SumInsert(before: seq<ClientResult>, r: ClientResult, after: seq<ClientResult>, d: nat)
    requires |r.delta| == d
    requires forall i :: 0 <= i < |before| ==> |before[i].delta| == d
    requires forall i :: 0 <= i < |after| ==> |after[i].delta| == d
    ensures SumDeltas(before + [r] + after, d) == Plus(SumDeltas(before + after, d), r.delta)
  {
    if after == [] {
      assert before + [r] + after == before + [r] && before + after == before;
      assert (before + [r])[..|before|] == before;
    } else {
      var n := |after| - 1;
      assert (before + [r] + after)[..|before| + 1 + n] == before + [r] + after[..n];
      assert (before + after)[..|before| + n] == before + after[..n];
      SumInsert(before, r, after[..n], d);
    }
  }

  /** Client-level sensitivity: adding or removing one clipped client, wherever it stands in the cohort, moves the
      sum by that client's update alone, hence by at most C. */
  lemma Sensitivity(before: seq<ClientResult>, r: ClientResult, after: seq<ClientResult>, d: nat, c: real)
    requires |r.delta| == d && NormSq(r.delta) <= c * c
    requires forall i :: 0 <= i < |before| ==> |before[i].delta| == d
    requires forall i :: 0 <= i < |after| ==> |after[i].delta| == d
    ensures Minus(SumDeltas(before + [r] + after, d), SumDeltas(before + after, d)) == r.delta
    ensures NormSq(Minus(SumDeltas(before + [r] + after, d), SumDeltas(before + after, d))) <= c * c
  {
    SumInsert(before, r, after, d);
    assert Minus(Plus(SumDeltas(before + after, d), r.delta), SumDeltas(before + after, d)) == r.delta;
  }

  /** Sample-count weighting is a convex combination: each coordinate of the average lies between bounds that hold
      for every client. */
  lemma {:induction false} WeightedPartial(results: seq<ClientResult>, total: nat, d: nat, j: nat, lo: real, hi: real)
    requires total > 0 && j < d && forall i :: 0 <= i < |results| ==> |results[i].delta| == d
    requires forall i :: 0 <= i < |results| ==> lo <= results[i].delta[j] <= hi
    ensures Mul(Share(TotalSamples(results), total), lo) <= WeightedDeltas(results, total, d)[j]
                <= Mul(Share(TotalSamples(results), total), hi)
  {
    if results == [] {
      MulZero(lo);
      MulZero(hi);
    } else {
      var n := |results| - 1;
      WeightedPartial(results[..n], total, d, j, lo, hi);
      var last := results[n];
      SharesAdd(TotalSamples(results[..n]), last.numSamples, total);
      HullStep(Share(TotalSamples(results[..n]), total), Share(last.numSamples, total), lo, hi,
               WeightedDeltas(results[..n], total, d)[j], last.delta[j],
               WeightedDeltas(results, total, d)[j], Share(TotalSamples(results), total));
    }
  }

  lemma SharesAdd(a: nat, b: nat, total: nat)
    requires total > 0
    ensures Share(a + b, total) == Share(a, total) + Share(b, total)
  {}

  lemma HullStep(u: real, w: real, lo: real, hi: real, acc: real, x: real, next: real, share: real)
    requires w >= 0.0 && lo <= x <= hi && Mul(u, lo) <= acc <= Mul(u, hi) && next == acc + Mul(w, x) && share == u + w
    ensures Mul(share, lo) <= next <= Mul(share, hi)
  {
    MulAdd(u, w, lo);
    MulAdd(u, w, hi);
    MulGrows(w, lo, x);
    MulGrows(w, x, hi);
  }

  lemma WholeShare(total: nat)
    requires total > 0
    ensures Share(total, total) == 1.0
  {
    var t := total as real;
    assert t > 0.0 && t / t == 1.0;
  }

  lemma WeightedInHull(results: seq<ClientResult>, d: nat, j: nat, lo: real, hi: real)
    requires TotalSamples(results) > 0 && j < d && forall i :: 0 <= i < |results| ==> |results[i].delta| == d
    requires forall i :: 0 <= i < |results| ==> lo <= results[i].delta[j] <= hi
    ensures lo <= WeightedDeltas(results, TotalSamples(results), d)[j] <= hi
  {
    WeightedPartial(results, TotalSamples(results), d, j, lo, hi);
    WholeShare(TotalSamples(results));
  }

  // ----- where the model moves -----

  /** What the clients report at coordinate j. */
  function Reports(results: seq<ClientResult>, j: nat): (column: seq<real>)
    requires forall i :: 0 <= i < |results| ==> j < |results[i].delta|
    ensures |column| == |results|
  {
    seq(|results|, i requires 0 <= i < |results| => results[i].delta[j])
  }

  /** The same, each times the client's number of samples. */
  function SampleReports(results: seq<ClientResult>, j: nat): (column: seq<real>)
    requires forall i :: 0 <= i < |results| ==> j < |results[i].delta|
    ensures |column| == |results|
  {
    seq(|results|, i requires 0 <= i < |results| => Mul(results[i].numSamples as real, results[i].delta[j]))
  }

  function SampleCounts(results: seq<ClientResult>): (counts: seq<real>) {
    seq(|results|, i requires 0 <= i < |results| => results[i].numSamples as real)
  }

  lemma {:induction false} SumDeltasAt(results: seq<ClientResult>, d: nat, j: nat)
    requires j < d && forall i :: 0 <= i < |results| ==> |results[i].delta| == d
    ensures SumDeltas(results, d)[j] == Sum(Reports(results, j))
  {
    if results != [] {
      var front := results[..|results| - 1];
      SumDeltasAt(front, d, j);
      SumSnoc(Reports(front, j), results[|results| - 1].delta[j]);
      assert Reports(results, j) == Reports(front, j) + [results[|results| - 1].delta[j]];
    }
  }

  lemma {:induction false} WeightedDeltasAt(results: seq<ClientResult>, total: nat, d: nat, j: nat)
    requires total > 0 && j < d && forall i :: 0 <= i < |results| ==> |results[i].delta| == d
    ensures Mul(total as real, WeightedDeltas(results, total, d)[j]) == Sum(SampleReports(results, j))
  {
    if results == [] {
      assert Mul(total as real, 0.0) == 0.0;
    } else {
      var front, last := results[..|results| - 1], results[|results| - 1];
      WeightedDeltasAt(front, total, d, j);
      SumSnoc(SampleReports(front, j), Mul(last.numSamples as real, last.delta[j]));
      assert SampleReports(results, j) == SampleReports(front, j) + [Mul(last.numSamples as real, last.delta[j])];
      ShareTimesTotal(total as real, WeightedDeltas(front, total, d)[j], last.numSamples as real,
                      Share(last.numSamples, total), last.delta[j]);
    }
  }

  lemma ShareTimesTotal(total: real, before: real, n: real, share: real, x: real)
    requires total > 0.0 && share == n / total
    ensures Mul(total, before + Mul(share, x)) == Mul(total, before) + Mul(n, x)
  {
    assert total * share == n;
    assert total * (share * x) == n * x by { MulAssoc(total, share, x); }
  }

  lemma {:induction false} TotalSamplesIsSum(results: seq<ClientResult>)
    ensures TotalSamples(results) as real == Sum(SampleCounts(results))
  {
    if results != [] {
      var front, last := results[..|results| - 1], results[|results| - 1];
      TotalSamplesIsSum(front);
      SumSnoc(SampleCounts(front), last.numSamples as real);
      assert SampleCounts(results) == SampleCounts(front) + [last.numSamples as real];
    }
  }

  lemma StepOfMean(n: real, lr: real, before: real, after: real, sum: real)
    requires n > 0.0 && after == before + Mul(lr, Mul(1.0 / n, sum))
    ensures Mul(n, after - before) == Mul(lr, sum)
  {
    assert n * (1.0 / n) == 1.0;
    var mean := (1.0 / n) * sum;
    assert n * mean == sum by { MulAssoc(n, 1.0 / n, sum); }
    assert n * (lr * mean) == lr * (n * mean);
  }

  lemma StepOfShare(total: real, lr: real, before: real, after: real, mean: real, sum: real)
    requires after == before + Mul(lr, mean) && Mul(total, mean) == sum
    ensures Mul(total, after - before) == Mul(lr, sum)
  {
    assert total * (lr * mean) == lr * (total * mean);
  }

  /** With uniform weights every coordinate moves by the server's rate times the mean of what the clients report and of
      the noise. */
  lemma UniformStep(cfg: Config, normal: Normal, s: State, generator: Option<Rng>, results: seq<ClientResult>, j: nat)
    requires Supported(cfg) && ProperNormal(normal) && WellFormed(cfg, s) && Fits(cfg, results, |s.model|)
    requires (cfg.dpEnabled ==> generator.Some?) && !cfg.weightBySamples && results != [] && j < |s.model|
    ensures var r := Aggregate(cfg, normal, s, generator, results).value;
            && |r.noise| == |s.model|
            && Mul(|results| as real, r.state.model[j] - s.model[j])
               == Mul(cfg.serverLr, Sum(Reports(results, j)) + r.noise[j])
  {
    var r := Aggregate(cfg, normal, s, generator, results).value;
    SumDeltasAt(results, |s.model|, j);
    StepOfMean(|results| as real, cfg.serverLr, s.model[j], r.state.model[j], Sum(Reports(results, j)) + r.noise[j]);
  }

  /** Weighted by samples every coordinate moves by the server's rate times the sample-weighted mean. */
  lemma SampleStep(cfg: Config, normal: Normal, s: State, generator: Option<Rng>, results: seq<ClientResult>, j: nat)
    requires Supported(cfg) && ProperNormal(normal) && WellFormed(cfg, s) && Fits(cfg, results, |s.model|)
    requires (cfg.dpEnabled ==> generator.Some?) && cfg.weightBySamples && j < |s.model|
    requires Sum(SampleCounts(results)) > 0.0
    ensures var r := Aggregate(cfg, normal, s, generator, results);
            r.Ok? && Mul(Sum(SampleCounts(results)), r.value.state.model[j] - s.model[j])
                     == Mul(cfg.serverLr, Sum(SampleReports(results, j)))
  {
    TotalSamplesIsSum(results);
    var r, total := Aggregate(cfg, normal, s, generator, results).value, TotalSamples(results);
    WeightedDeltasAt(results, total, |s.model|, j);
    StepOfShare(total as real, cfg.serverLr, s.model[j], r.state.model[j],
                WeightedDeltas(results, total, |s.model|)[j], Sum(SampleReports(results, j)));
  }

  /** Nobody moves the model; and under DP a non-empty cohort, uniformly weighted, moves it with one draw of the stated
      standard deviation, without DP with no noise. */
  lemma NoiseDrawn(cfg: Config, normal: Normal, s: State, generator: Option<Rng>, results: seq<ClientResult>)
    requires Supported(cfg) && ProperNormal(normal) && WellFormed(cfg, s) && Fits(cfg, results, |s.model|)
    requires (cfg.dpEnabled ==> generator.Some?) && !DividesByZero(cfg, results)
    ensures var r := Aggregate(cfg, normal, s, generator, results).value;
            && (results == [] ==> r.state.model == s.model)
            && (if cfg.dpEnabled && !cfg.weightBySamples && results != [] then
                  var drawn := normal(generator.value, cfg.noiseMultiplier * cfg.updateClipNorm, |s.model|);
                  r.noise == drawn.0 && r.generator == Some(drawn.1)
                else r.generator == generator && forall j :: 0 <= j < |r.noise| ==> r.noise[j] == 0.0)
  {
    hide NextModel, NextGlobal, NextLocals, TotalSamples;
    if results == [] { EmptyCohort(cfg, s.model, Zero(|s.model|)); }
    assert NoiseStd(cfg) == cfg.noiseMultiplier * cfg.updateClipNorm;
  }

  lemma EmptyCohort(cfg: Config, model: Vec, noise: Vec)
    requires |noise| == |model|
    ensures NextModel(cfg, model, [], noise) == model
  {}

  // ----- SCAFFOLD conservation -----

  /** The sum of coordinate j over the first n local control variates. */
  function Column(cLocals: seq<Vec>, j: nat, n: nat): real
    requires n <= |cLocals| && forall i :: 0 <= i < |cLocals| ==> j < |cLocals[i]|
  {
    if n == 0 then 0.0 else Column(cLocals, j, n - 1) + cLocals[n - 1][j]
  }

  /** The global control variate is the mean of the local ones: numClients times it equals their sum. */
  ghost predicate Conserved(cfg: Config, s: State)
    requires cfg.algorithm == Scaffold && WellFormed(cfg, s)
  {
    forall j :: 0 <= j < |s.model| ==>
      Mul(cfg.numClients as real, s.cGlobal[j]) == Column(s.cLocals, j, cfg.numClients)
  }

  ghost predicate DistinctIds(results: seq<ClientResult>) {
    forall i, j :: 0 <= i < j < |results| ==> results[i].clientId != results[j].clientId
  }

  /** Each result reports the change from the control variate the server handed out. */
  ghost predicate ReportsChange(s: State, results: seq<ClientResult>) {
    forall i :: 0 <= i < |results| ==>
      && results[i].clientId < |s.cLocals|
      && |results[i].newCLocal| == |s.cLocals[results[i].clientId]|
      && results[i].deltaC == Minus(results[i].newCLocal, s.cLocals[results[i].clientId])
  }

  lemma {:induction false} ColumnUpdate(cLocals: seq<Vec>, j: nat, n: nat, k: nat, v: Vec)
    requires n <= |cLocals| && k < |cLocals| && j < |v| && forall i :: 0 <= i < |cLocals| ==> j < |cLocals[i]|
    ensures Column(cLocals[k := v], j, n) == Column(cLocals, j, n) + if k < n then v[j] - cLocals[k][j] else 0.0
  {
    if n > 0 { ColumnUpdate(cLocals, j, n - 1, k, v); }
  }

  /** The change at coordinate j that the last result of client k reports, if there is one. */
  function Reported(results: seq<ClientResult>, k: nat, j: nat): real
    requires forall i :: 0 <= i < |results| ==> j < |results[i].deltaC|
  {
    if results == [] then 0.0
    else
      var last := results[|results| - 1];
      if last.clientId == k then last.deltaC[j] else Reported(results[..|results| - 1], k, j)
  }

  /** The reported changes at coordinate j that a later result of the same client supersedes. */
  function Superseded(results: seq<ClientResult>, j: nat): real
    requires forall i :: 0 <= i < |results| ==> j < |results[i].deltaC|
  {
    if results == [] then 0.0
    else
      var front := results[..|results| - 1];
      Superseded(front, j) + Reported(front, results[|results| - 1].clientId, j)
  }

  lemma {:induction false} ReplacedAt(s: State, results: seq<ClientResult>, k: nat, d: nat, j: nat)
    requires j < d && k < |s.cLocals| && ReportsChange(s, results)
    requires forall i :: 0 <= i < |s.cLocals| ==> |s.cLocals[i]| == d
    ensures forall i :: 0 <= i < |results| ==> |results[i].deltaC| == d
    ensures |ReplaceLocals(s.cLocals, results)[k]| == d
    ensures ReplaceLocals(s.cLocals, results)[k][j] == s.cLocals[k][j] + Reported(results, k, j)
  {
    if results != [] { ReplacedAt(s, results[..|results| - 1], k, d, j); }
  }

  /** Summed over the results, cohort times the aggregated control change is the change of the local sum plus what was
      superseded. */
  lemma {:induction false} ColumnTelescopes(s: State, results: seq<ClientResult>, cohort: nat, d: nat, j: nat)
    requires cohort > 0 && j < d
    requires forall i :: 0 <= i < |s.cLocals| ==> |s.cLocals[i]| == d
    requires ReportsChange(s, results)
    ensures forall i :: 0 <= i < |results| ==> |results[i].deltaC| == d
    ensures forall i :: 0 <= i < |s.cLocals| ==> |ReplaceLocals(s.cLocals, results)[i]| == d
    ensures Mul(cohort as real, ControlShare(results, cohort, d)[j])
         == Column(ReplaceLocals(s.cLocals, results), j, |s.cLocals|) - Column(s.cLocals, j, |s.cLocals|)
            + Superseded(results, j)
  {
    ReplaceLocalsShape(s.cLocals, results, d);
    if results != [] {
      var n := |results| - 1;
      var last, front := results[n], results[..n];
      ColumnTelescopes(s, front, cohort, d, j);
      ReplacedAt(s, front, last.clientId, d, j);
      ColumnUpdate(ReplaceLocals(s.cLocals, front), j, |s.cLocals|, last.clientId, last.newCLocal);
      var a, x := ControlShare(front, cohort, d)[j], last.deltaC[j];
      assert ControlShare(results, cohort, d)[j] == a + Mul(1.0 / cohort as real, x);
      ShareTimesCohort(cohort as real, a, x);
    }
  }

  /** No result supersedes another when the clients are distinct. */
  lemma {:induction false} NothingSuperseded(results: seq<ClientResult>, j: nat)
    requires DistinctIds(results) && forall i :: 0 <= i < |results| ==> j < |results[i].deltaC|
    ensures Superseded(results, j) == 0.0
  {
    if results != [] {
      var n := |results| - 1;
      NothingSuperseded(results[..n], j);
      NotReported(results[..n], results[n].clientId, j);
    }
  }

  lemma {:induction false} NotReported(results: seq<ClientResult>, k: nat, j: nat)
    requires forall i :: 0 <= i < |results| ==> j < |results[i].deltaC| && results[i].clientId != k
    ensures Reported(results, k, j) == 0.0
  {
    if results != [] { NotReported(results[..|results| - 1], k, j); }
  }

  lemma ShareTimesCohort(cohort: real, a: real, x: real)
    requires cohort > 0.0
    ensures Mul(cohort, a + Mul(1.0 / cohort, x)) == Mul(cohort, a) + x
  {
    assert cohort * ((1.0 / cohort) * x) == x;
  }

  /** The superseded changes cancel at every coordinate. */
  ghost predicate Cancels(results: seq<ClientResult>, d: nat)
    requires forall i :: 0 <= i < |results| ==> |results[i].deltaC| == d
  {
    forall j :: 0 <= j < d ==> Superseded(results, j) == 0.0
  }

  /** One aggregation keeps the mean exactly when the changes that later results of the same client supersede cancel
      out. */
  lemma ConservedExactly(cfg: Config, normal: Normal, s: State, generator: Option<Rng>, results: seq<ClientResult>)
    requires cfg.algorithm == Scaffold && Supported(cfg) && ProperNormal(normal) && cfg.numClients > 0
    requires WellFormed(cfg, s) && Fits(cfg, results, |s.model|) && !DividesByZero(cfg, results)
    requires (cfg.dpEnabled ==> generator.Some?) && Conserved(cfg, s) && ReportsChange(s, results)
    ensures var r := Aggregate(cfg, normal, s, generator, results);
            r.Ok? && (Conserved(cfg, r.value.state) <==> Cancels(results, |s.model|))
  {
    var r := Aggregate(cfg, normal, s, generator, results).value.state;
    if results != [] {
      ScaffoldVariates(cfg, normal, s, generator, results);
      forall j | 0 <= j < |s.model|
        ensures Mul(cfg.numClients as real, r.cGlobal[j])
             == Column(r.cLocals, j, cfg.numClients) + Superseded(results, j)
      {
        CoordinateConserved(cfg, s, results, j, r.cGlobal[j]);
      }
      hide Aggregate, Superseded, ReportsChange;
      if Conserved(cfg, r) {
        forall j | 0 <= j < |s.model| ensures Superseded(results, j) == 0.0 {
          assert Mul(cfg.numClients as real, r.cGlobal[j]) == Column(r.cLocals, j, cfg.numClients);
        }
      }
    }
  }

  /** So a cohort of distinct clients keeps it. */
  lemma ScaffoldConserves(cfg: Config, normal: Normal, s: State, generator: Option<Rng>, results: seq<ClientResult>)
    requires cfg.algorithm == Scaffold && Supported(cfg) && ProperNormal(normal) && cfg.numClients > 0
    requires WellFormed(cfg, s) && Fits(cfg, results, |s.model|)
    requires Conserved(cfg, s) && ReportsChange(s, results) && DistinctIds(results)
    ensures var r := Aggregate(cfg, normal, s, generator, results);
            r.Ok? && Conserved(cfg, r.value.state)
  {
    ConservedExactly(cfg, normal, s, generator, results);
    hide Aggregate, Superseded, ReportsChange, Conserved;
    forall j | 0 <= j < |s.model| ensures Superseded(results, j) == 0.0 { NothingSuperseded(results, j); }
  }

  lemma ScaffoldVariates(cfg: Config, normal: Normal, s: State, generator: Option<Rng>, results: seq<ClientResult>)
    requires cfg.algorithm == Scaffold && Supported(cfg) && ProperNormal(normal) && !DividesByZero(cfg, results)
    requires WellFormed(cfg, s) && Fits(cfg, results, |s.model|) && results != [] && (cfg.dpEnabled ==> generator.Some?)
    ensures var r := Aggregate(cfg, normal, s, generator, results).value.state;
            && r.cLocals == ReplaceLocals(s.cLocals, results)
            && r.cGlobal == Plus(s.cGlobal, Scale(Share(|results|, cfg.numClients),
                                                  ControlShare(results, |results|, |s.model|)))
  {}

  lemma CoordinateConserved(cfg: Config, s: State, results: seq<ClientResult>, j: nat, next: real)
    requires cfg.algorithm == Scaffold && cfg.numClients > 0 && results != [] && j < |s.model|
    requires WellFormed(cfg, s) && Fits(cfg, results, |s.model|)
    requires Conserved(cfg, s) && ReportsChange(s, results)
    requires next == s.cGlobal[j] + Mul(Share(|results|, cfg.numClients),
                                        ControlShare(results, |results|, |s.model|)[j])
    ensures forall i :: 0 <= i < |s.cLocals| ==> |ReplaceLocals(s.cLocals, results)[i]| == |s.model|
    ensures Mul(cfg.numClients as real, next)
         == Column(ReplaceLocals(s.cLocals, results), j, cfg.numClients) + Superseded(results, j)
  {
    var cohort, d := |results|, |s.model|;
    ColumnTelescopes(s, results, cohort, d, j);
    Rescale(cfg.numClients as real, s.cGlobal[j], cohort as real, ControlShare(results, cohort, d)[j], next,
            Share(cohort, cfg.numClients), Column(s.cLocals, j, cfg.numClients),
            Column(ReplaceLocals(s.cLocals, results), j, cfg.numClients) + Superseded(results, j));
  }

  lemma Rescale(n: real, g: real, cohort: real, a: real, next: real, q: real, before: real, after: real)
    requires n > 0.0 && q == cohort / n && next == g + Mul(q, a)
    requires Mul(n, g) == before && Mul(cohort, a) == after - before
    ensures Mul(n, next) == after
  {
    assert n * q == cohort;
    assert n * (q * a) == cohort * a;
  }

  /** Such a cohort: a client appears twice, so the distinct ids of the sampler matter. */
  lemma DuplicatesBreakConservation(normal: Normal)
    requires ProperNormal(normal)
    ensures var cfg := Config(Scaffold, 1, 1.0, false, false, 0.0, 1.0);
            var s := State([0.0], [0.0], [[0.0]], 0);
            var twice := ClientResult(0, [0.0], 1, [1.0], [1.0]);
            && WellFormed(cfg, s) && Conserved(cfg, s)
            && Fits(cfg, [twice, twice], 1) && ReportsChange(s, [twice, twice])
            && !Conserved(cfg, Aggregate(cfg, normal, s, None, [twice, twice]).value.state)
  {
    var cfg := Config(Scaffold, 1, 1.0, false, false, 0.0, 1.0);
    var s := State([0.0], [0.0], [[0.0]], 0);
    var twice := ClientResult(0, [0.0], 1, [1.0], [1.0]);
    var results := [twice, twice];
    assert [1.0] == Minus([1.0], [0.0]);
    assert Column(s.cLocals, 0, 1) == Column(s.cLocals, 0, 0) + 0.0;
    var r := Aggregate(cfg, normal, s, None, results).value.state;
    assert results[..1] == [twice] && [twice][..0] == [];
    assert ControlShare([twice], 2, 1) == [0.5];
    assert ControlShare(results, 2, 1) == [1.0];
    assert r.cGlobal == [2.0];
    assert ReplaceLocals(s.cLocals, [twice]) == [[1.0]];
    assert r.cLocals == [[1.0]];
    assert Column(r.cLocals, 0, 1) == Column(r.cLocals, 0, 0) + 1.0;
  }

  // ----- runtime snapshots -----

  /** export_runtime_state; counts are ints because a loaded snapshot may be anything. */
  datatype Snapshot = Snapshot(schemaVersion: int, algorithm: Algorithm, numClients: int, roundCount: int,
                               modelState: Vec, cGlobal: Vec, cLocals: seq<Vec>)

  function Export(cfg: Config, s: State): Snapshot {
    Snapshot(1, cfg.algorithm, cfg.numClients, s.roundCount, s.model, s.cGlobal, s.cLocals)
  }

  /** The snapshots a server of dimension d accepts. */
  ghost predicate Loadable(cfg: Config, d: nat, x: Snapshot) {
    && x.schemaVersion == 1 && x.algorithm == cfg.algorithm && x.numClients == cfg.numClients && x.roundCount >= 0
    && |x.modelState| == d
    && WellFormed(cfg, State(x.modelState, x.cGlobal, x.cLocals, x.roundCount))
  }

  // ----- the server object -----

  class Server {
    const m: RealFns
    const cfg: Config
    const normal: Normal
    var model: Vec
    var cGlobal: Vec
    var cLocals: seq<Vec>
    var roundCount: nat
    var generator: Option<Rng>

    function Current(): State
      reads this
    {
      State(model, cGlobal, cLocals, roundCount)
    }

    ghost predicate Valid()
      reads this
    {
      && Standard(m) && Supported(cfg) && ProperNormal(normal) && WellFormed(cfg, Current())
      && (cfg.dpEnabled ==> generator.Some?)
    }

    constructor (m: RealFns, cfg: Config, normal: Normal, model: Vec, generator: Option<Rng>)
      requires Standard(m) && Supported(cfg) && ProperNormal(normal) && (cfg.dpEnabled ==> generator.Some?)
      ensures Valid() && this.m == m && this.cfg == cfg && this.normal == normal
      ensures this.model == model && this.generator == generator && roundCount == 0
      ensures cfg.algorithm == Scaffold ==>
        cGlobal == Zero(|model|) && cLocals == seq(cfg.numClients, _ => Zero(|model|))
    {
      this.m, this.cfg, this.normal := m, cfg, normal;
      this.model, this.generator, this.roundCount := model, generator, 0;
      this.cGlobal, this.cLocals := [], [];
      if cfg.algorithm == Scaffold {
        this.cGlobal := Zero(|model|);
        this.cLocals := seq(cfg.numClients, _ => Zero(|model|));
      }
    }

    /** The noise and the generator state are what the old generator state gives. */
    ghost predicate Drawn(noise: Vec, before: Option<Rng>, results: seq<ClientResult>)
      requires ProperNormal(normal) && (cfg.dpEnabled ==> before.Some?)
      reads this
    {
      var r := NoiseFor(cfg, normal, before, results, |model|);
      noise == r.0 && generator == r.1
    }

    method SumOfDeltas(results: seq<ClientResult>) returns (total: Vec)
      requires Valid() && Fits(cfg, results, |model|)
      ensures total == SumDeltas(results, |model|)
    {
      total := Zero(|model|);
      for i := 0 to |results|
        invariant total == SumDeltas(results[..i], |model|)
      {
        assert results[..i + 1][..i] == results[..i];
        total := Plus(total, results[i].delta);
      }
      assert results[..|results|] == results;
    }

    /** An empty cohort gives an update without entries. */
    method WeightedAverageDelta(results: seq<ClientResult>) returns (r: Outcome<Option<Vec>>)
      requires Valid() && Fits(cfg, results, |model|)
      ensures r.Ok? <==> results == [] || TotalSamples(results) > 0
      ensures r.Ok? ==>
        r.value == if results == [] then None else Some(WeightedDeltas(results, TotalSamples(results), |model|))
    {
      if results == [] { return Ok(None); }
      var total: nat := 0;
      for i := 0 to |results|
        invariant total == TotalSamples(results[..i])
      {
        assert results[..i + 1][..i] == results[..i];
        total := total + results[i].numSamples;
      }
      assert results[..|results|] == results;
      if total == 0 { return Error("division by zero"); }
      var average := Zero(|model|);
      for i := 0 to |results|
        invariant average == WeightedDeltas(results[..i], total, |model|)
      {
        assert results[..i + 1][..i] == results[..i];
        average := Plus(average, Scale(Share(results[i].numSamples, total), results[i].delta));
      }
      return Ok(Some(average));
    }

    /** The cohort sum, with noise under DP, divided by the cohort size; also the noise norm. */
    method NoisyMean(results: seq<ClientResult>) returns (delta: Vec, noiseNorm: real, ghost noise: Vec)
      requires Valid() && Fits(cfg, results, |model|) && results != [] && !cfg.weightBySamples
      modifies this`generator
      ensures Valid() && Drawn(noise, old(generator), results)
      ensures delta == MeanOver(|results|, Plus(SumDeltas(results, |model|), noise))
      ensures noiseNorm == NoiseReport(m, cfg, results, noise)
    {
      var total := SumOfDeltas(results);
      if !cfg.dpEnabled {
        PlusZero(total);
        return MeanOver(|results|, total), 0.0, Zero(|model|);
      }
      var (drawn, after) := normal(generator.value, NoiseStd(cfg), |model|);
      generator := Some(after);
      noise := drawn;
      noiseNorm := Norm(m, drawn);
      delta := MeanOver(|results|, Plus(total, drawn));
    }

    method AggregateFedavgFamily(results: seq<ClientResult>) returns (r: Outcome<real>, ghost noise: Vec)
      requires Valid() && Fits(cfg, results, |model|) && cfg.algorithm != Scaffold
      modifies this`model, this`generator
      ensures Valid() && |model| == |old(model)|
      ensures Drawn(noise, old(generator), results)
      ensures r.Error? <==> DividesByZero(cfg, results)
      ensures r.Error? ==> model == old(model)
      ensures r.Ok? ==> model == NextModel(cfg, old(model), results, noise)
                        && r.value == NoiseReport(m, cfg, results, noise)
    {
      noise := Zero(|model|);
      r := Ok(0.0);
      if cfg.weightBySamples {
        var average := WeightedAverageDelta(results);
        if average.Error? {
          r := Error(average.message);
        } else if average.value.Some? {
          model := ApplyDelta(model, cfg.serverLr, average.value.value);
        }
      } else if results != [] {
        var delta, noiseNorm;
        delta, noiseNorm, noise := NoisyMean(results);
        model := ApplyDelta(model, cfg.serverLr, delta);
        r := Ok(noiseNorm);
      }
    }

    method AggregateScaffold(results: seq<ClientResult>) returns (noiseNorm: real, ghost noise: Vec)
      requires Valid() && Fits(cfg, results, |model|) && cfg.algorithm == Scaffold
      modifies this`model, this`generator, this`cGlobal, this`cLocals
      ensures |model| == |old(model)|
      ensures Drawn(noise, old(generator), results)
      ensures model == NextModel(cfg, old(model), results, noise)
      ensures noiseNorm == NoiseReport(m, cfg, results, noise)
      ensures cGlobal == NextGlobal(cfg, old(cGlobal), results)
      ensures cLocals == NextLocals(cfg, old(cLocals), results)
    {
      noise := Zero(|model|);
      noiseNorm := 0.0;
      if results != [] {
        var cohort := |results|;
        var delta;
        delta, noiseNorm, noise := NoisyMean(results);
        var deltaC := AccumulateControls(results);
        model := ApplyDelta(model, cfg.serverLr, delta);
        cGlobal := Plus(cGlobal, Scale(Share(cohort, cfg.numClients), deltaC));
      }
    }

    /** The loop over a non-empty cohort: sum the control changes, store each client's new control variate. */
    method AccumulateControls(results: seq<ClientResult>) returns (deltaC: Vec)
      requires Valid() && Fits(cfg, results, |model|) && cfg.algorithm == Scaffold && results != []
      modifies this`cLocals
      ensures deltaC == ControlShare(results, |results|, |model|)
      ensures cLocals == ReplaceLocals(old(cLocals), results)
    {
      var cohort := |results|;
      deltaC := Zero(|model|);
      for i := 0 to |results|
        invariant |cLocals| == |old(cLocals)|
        invariant deltaC == ControlShare(results[..i], cohort, |model|)
        invariant cLocals == ReplaceLocals(old(cLocals), results[..i])
      {
        assert results[..i + 1][..i] == results[..i];
        deltaC := Plus(deltaC, MeanOver(cohort, results[i].deltaC));
        cLocals := cLocals[results[i].clientId := results[i].newCLocal];
      }
      assert results[..|results|] == results;
    }

    /** aggregate: one round's update of the whole server state; the returned value is the noise norm. */
    method AggregateRound(results: seq<ClientResult>) returns (r: Outcome<real>)
      requires Valid() && Fits(cfg, results, |model|)
      modifies this
      ensures Valid()
      ensures var spec := Aggregate(cfg, normal, old(Current()), old(generator), results);
        && (r.Ok? <==> spec.Ok?)
        && (r.Ok? ==> Current() == spec.value.state && generator == spec.value.generator
                      && r.value == NoiseReport(m, cfg, results, spec.value.noise))
        && (r.Error? ==> Current() == old(Current()) && generator == old(generator))
    {
      ghost var spec := Aggregate(cfg, normal, Current(), generator, results);
      ghost var noise;
      if cfg.algorithm != Scaffold {
        r, noise := AggregateFedavgFamily(results);
        if r.Error? { return; }
      } else {
        var norm;
        norm, noise := AggregateScaffold(results);
        r := Ok(norm);
      }
      roundCount := roundCount + 1;
      assert Current() == spec.value.state;
    }

    method ExportRuntimeState() returns (x: Snapshot)
      requires Valid()
      ensures x == Export(cfg, Current()) && Loadable(cfg, |model|, x)
    {
      x := Snapshot(1, cfg.algorithm, cfg.numClients, roundCount, model, cGlobal, cLocals);
    }

    method ControlsFit(controls: seq<Vec>) returns (fit: bool)
      ensures fit <==> forall k :: 0 <= k < |controls| ==> |controls[k]| == |model|
    {
      for i := 0 to |controls|
        invariant forall k :: 0 <= k < i ==> |controls[k]| == |model|
      {
        if |controls[i]| != |model| { return false; }
      }
      return true;
    }

    /** The checks on the control variates of a snapshot. */
    method CheckControls(x: Snapshot) returns (r: Outcome<()>)
      requires |x.modelState| == |model| && x.roundCount >= 0
      ensures r.Ok? <==> WellFormed(cfg, State(x.modelState, x.cGlobal, x.cLocals, x.roundCount))
    {
      if cfg.algorithm == Scaffold {
        if |x.cGlobal| != |model| { return Error("SCAFFOLD global control-variate keys mismatch"); }
        if |x.cLocals| != cfg.numClients { return Error("SCAFFOLD local control-variate count mismatch"); }
        var fit := ControlsFit(x.cLocals);
        if !fit { return Error("SCAFFOLD client control-variate keys mismatch"); }
      } else if x.cGlobal != [] || x.cLocals != [] {
        return Error("non-SCAFFOLD runtime checkpoint unexpectedly contains control variates");
      }
      return Ok(());
    }

    /** load_runtime_state: accepts exactly the loadable snapshots and then holds exactly their contents. */
    method LoadRuntimeState(x: Snapshot) returns (r: Outcome<()>)
      requires Valid()
      modifies this
      ensures Valid() && generator == old(generator) && |model| == |old(model)|
      ensures r.Ok? <==> Loadable(cfg, |old(model)|, x)
      ensures r.Ok? ==> Current() == State(x.modelState, x.cGlobal, x.cLocals, x.roundCount)
      ensures r.Error? ==> cGlobal == old(cGlobal) && cLocals == old(cLocals) && roundCount == old(roundCount)
    {
      if x.schemaVersion != 1 { return Error("server runtime state schema_version must be 1"); }
      if x.algorithm != cfg.algorithm { return Error("server runtime state algorithm mismatch"); }
      if x.numClients != cfg.numClients { return Error("server runtime state num_clients mismatch"); }
      if x.roundCount < 0 { return Error("server runtime state round_count must be non-negative"); }
      if |x.modelState| != |model| { return Error("model_state does not fit the model"); }
      hide WellFormed;
      model := x.modelState;
      var checked := CheckControls(x);
      if checked.Error? { return checked; }
      cGlobal, cLocals := x.cGlobal, x.cLocals;
      roundCount := x.roundCount;
      return Ok(());
    }
  }
}
