/** One federated run as a deterministic function: sampling, local training, aggregation, accounting, history.
    Local training, evaluation and the random number library are parameters. */
module FederatedRun {
  import opened RealMath
  import opened SortedInts
  import opened Vectors
  import opened ClientUpdate
  import opened FederatedServer
  import opened DpAccountant

  /** numpy's legacy generator state. */
  datatype NumpyState = NumpyState(bitGenerator: string, keys: seq<nat>, position: int, hasGauss: int, cached: real)

  /** The process-wide generators that training consumes. */
  datatype Machine = Machine(python: Rng, numpy: NumpyState, torch: Rng, cuda: seq<Rng>)

  datatype TrainOutput = TrainOutput(rawDelta: Vec, localSteps: nat, numSamples: nat, avgLoss: real)

  datatype World = World(
    m: RealFns,
    devices: nat,
    initialModel: (string, int) -> Vec,
    seededMachine: int -> Machine,
    seededSampler: int -> Rng,
    seededPrivacy: int -> Rng,
    uniform: Rng -> (real, Rng),
    pick: (Rng, nat, nat) -> (seq<nat>, Rng),
    normal: Normal,
    train: (string, nat, Vec, Vec, Vec, Machine) -> (TrainOutput, Machine),
    evaluate: (string, Vec, Machine) -> ((real, real), Machine),
    statistics: (Experiment, seq<TrainOutput>) -> seq<real>)

  ghost predicate ProperMachine(w: World, x: Machine) {
    x.numpy.keys != [] && |x.cuda| == w.devices
  }

  ghost predicate DistinctBelow(ids: seq<nat>, n: nat) {
    && (forall i :: 0 <= i < |ids| ==> ids[i] < n)
    && forall i, j :: 0 <= i < j < |ids| ==> ids[i] != ids[j]
  }

  /** What the model assumes of the libraries. */
  ghost predicate ProperWorld(w: World) {
    && Standard(w.m) && ProperNormal(w.normal)
    && (forall seed :: ProperMachine(w, w.seededMachine(seed)))
    && (forall g, n: nat, k: nat :: k <= n ==> |w.pick(g, n, k).0| == k && DistinctBelow(w.pick(g, n, k).0, n))
    && (forall rest, id, model, cg, cl, x :: ProperMachine(w, x) ==>
          var r := w.train(rest, id, model, cg, cl, x);
          && |r.0.rawDelta| == |model| && r.0.localSteps > 0 && r.0.numSamples > 0
          && ProperMachine(w, r.1))
    && (forall rest, model, x :: ProperMachine(w, x) ==> ProperMachine(w, w.evaluate(rest, model, x).1))
  }

  /** A configuration. `rest` is what only the model, the training and the evaluation look at. */
  datatype Experiment = Experiment(server: Config, rounds: nat, sampleRate: real, poisson: bool, seed: int,
                                   clientLr: real, targetDelta: real, resultsDir: string, rest: string)

  ghost predicate ValidExperiment(cfg: Experiment) {
    && Supported(cfg.server) && cfg.server.numClients > 0 && cfg.clientLr > 0.0
    && 0.0 <= cfg.sampleRate <= 1.0 && 0.0 < cfg.targetDelta < 1.0
    && cfg.server.noiseMultiplier >= 0.0 && cfg.server.updateClipNorm > 0.0
  }

  // ----- sampling -----

  /** Poisson sampling: one draw per client, in client order, from client i on. */
  function PoissonFrom(w: World, n: nat, rate: real, i: nat, g: Rng): (r: (seq<nat>, Rng))
    requires i <= n
    ensures forall k :: 0 <= k < |r.0| ==> i <= r.0[k] < n
    ensures forall j, k :: 0 <= j < k < |r.0| ==> r.0[j] < r.0[k]
    decreases n - i
  {
    if i == n then ([], g)
    else
      var (u, after) := w.uniform(g);
      var rest := PoissonFrom(w, n, rate, i + 1, after);
      if u < rate then ([i] + rest.0, rest.1) else rest
  }

  /** The generator after n draws, and the draw that follows. */
  function AfterDraws(w: World, g: Rng, n: nat): Rng {
    if n == 0 then g else w.uniform(AfterDraws(w, g, n - 1)).1
  }

  function Draw(w: World, g: Rng, n: nat): real {
    w.uniform(AfterDraws(w, g, n)).0
  }

  lemma {:induction false} PoissonTail(w: World, n: nat, rate: real, i: nat, g: Rng)
    requires i <= n
    ensures PoissonFrom(w, n, rate, i, AfterDraws(w, g, i)).1 == AfterDraws(w, g, n)
    ensures forall c: nat :: c in PoissonFrom(w, n, rate, i, AfterDraws(w, g, i)).0 <==>
      i <= c < n && Draw(w, g, c) < rate
    decreases n - i
  {
    if i < n {
      PoissonTail(w, n, rate, i + 1, g);
      var rest := PoissonFrom(w, n, rate, i + 1, AfterDraws(w, g, i + 1));
      assert forall c: nat :: c in [i] + rest.0 <==> c == i || c in rest.0;
    }
  }

  /** Poisson sampling draws once per client, and selects a client exactly when its draw is below the rate. */
  lemma PoissonSelects(w: World, cfg: Experiment, g: Rng)
    requires cfg.poisson
    ensures SampleClientIds(w, cfg, g).1 == AfterDraws(w, g, cfg.server.numClients)
    ensures forall c: nat :: c in SampleClientIds(w, cfg, g).0 <==>
      c < cfg.server.numClients && Draw(w, g, c) < cfg.sampleRate
  {
    PoissonTail(w, cfg.server.numClients, cfg.sampleRate, 0, g);
  }

  /** Python's round: half to even. */
  function RoundHalfEven(x: real): int {
    var f := x.Floor;
    var part := x - f as real;
    if part < 0.5 then f else if part > 0.5 then f + 1 else if f % 2 == 0 then f else f + 1
  }

  function CohortSize(n: nat, rate: real): (k: nat)
    ensures k <= n
  {
    var size := RoundHalfEven(Mul(rate, n as real));
    if size < 0 then 0 else if size > n then n else size
  }

  /** A fixed-size cohort has the integer nearest to the rate times the number of clients, the even one if two are. */
  lemma CohortIsNearest(n: nat, rate: real)
    requires 0.0 <= rate <= 1.0
    ensures Abs(CohortSize(n, rate) as real - Mul(rate, n as real)) <= 0.5
    ensures Abs(CohortSize(n, rate) as real - Mul(rate, n as real)) == 0.5 ==> CohortSize(n, rate) % 2 == 0
  {
    MulMono(rate, 1.0, n as real, n as real);
    assert 0.0 <= Mul(rate, n as real) <= n as real;
    hide RoundHalfEven, Mul;
    RoundsNearest(Mul(rate, n as real), n);
  }

  lemma RoundsNearest(x: real, n: nat)
    requires 0.0 <= x <= n as real
    ensures 0 <= RoundHalfEven(x) <= n
    ensures Abs(RoundHalfEven(x) as real - x) <= 0.5
    ensures Abs(RoundHalfEven(x) as real - x) == 0.5 ==> RoundHalfEven(x) % 2 == 0
  {}

  function SampleClientIds(w: World, cfg: Experiment, g: Rng): (r: (seq<nat>, Rng)) {
    var n := cfg.server.numClients;
    if cfg.poisson then PoissonFrom(w, n, cfg.sampleRate, 0, g)
    else if cfg.sampleRate <= 0.0 then ([], g)
    else if cfg.sampleRate >= 1.0 then (seq(n, i => i), g)
    else w.pick(g, n, CohortSize(n, cfg.sampleRate))
  }

  /** No client appears twice in a cohort, whatever the sampling strategy. */
  lemma CohortIsDistinct(w: World, cfg: Experiment, g: Rng)
    requires ProperWorld(w)
    ensures DistinctBelow(SampleClientIds(w, cfg, g).0, cfg.server.numClients)
  {
    var n := cfg.server.numClients;
    if !cfg.poisson && 0.0 < cfg.sampleRate < 1.0 {
      var k := CohortSize(n, cfg.sampleRate);
      assert DistinctBelow(w.pick(g, n, k).0, n);
    }
  }

  // ----- local training -----

  /** The delta a client transmits: clipped under DP. */
  function Transmitted(w: World, cfg: Experiment, raw: Vec): (v: Vec)
    requires Standard(w.m) && cfg.server.updateClipNorm > 0.0
    ensures |v| == |raw|
  {
    NormBound(w.m, raw, 0.0);
    if cfg.server.dpEnabled then Scale(ClipFactor(Norm(w.m, raw), cfg.server.updateClipNorm), raw) else raw
  }

  /** Without DP the raw delta; under DP the raw delta too, unless its norm with the guard exceeds the clip norm: then
      the multiple of it that brings exactly that down to the clip norm. */
  lemma TransmittedMeans(w: World, cfg: Experiment, raw: Vec)
    requires Standard(w.m) && cfg.server.updateClipNorm > 0.0
    ensures var guarded, c := Norm(w.m, raw) + 0.000000000001, cfg.server.updateClipNorm;
            if cfg.server.dpEnabled && guarded > c
            then exists f: real :: Transmitted(w, cfg, raw) == Scale(f, raw) && Mul(f, guarded) == c
            else Transmitted(w, cfg, raw) == raw
  {
    NormBound(w.m, raw, 0.0);
    hide Norm, Standard, ClipFactor;
    ClipFactorBounds(Norm(w.m, raw), cfg.server.updateClipNorm);
    ScaleOne(raw);
  }

  function ResultOf(w: World, cfg: Experiment, s: State, id: nat, out: TrainOutput): (r: ClientResult)
    requires Standard(w.m) && ValidExperiment(cfg) && WellFormed(cfg.server, s) && id < cfg.server.numClients
    requires |out.rawDelta| == |s.model| && out.localSteps > 0
    ensures r.clientId == id && |r.delta| == |s.model| && r.numSamples == out.numSamples
    ensures cfg.server.algorithm == Scaffold ==>
      |r.newCLocal| == |s.model| && r.deltaC == Minus(r.newCLocal, s.cLocals[id])
  {
    var delta := Transmitted(w, cfg, out.rawDelta);
    if cfg.server.algorithm == Scaffold then
      var newC := NewControl(s.cLocals[id], s.cGlobal, delta, out.localSteps, cfg.clientLr);
      ClientResult(id, delta, out.numSamples, Minus(newC, s.cLocals[id]), newC)
    else ClientResult(id, delta, out.numSamples, [], [])
  }

  function CallTrain(w: World, cfg: Experiment, s: State, id: nat, x: Machine): (TrainOutput, Machine)
    requires WellFormed(cfg.server, s) && id < cfg.server.numClients
  {
    if cfg.server.algorithm == Scaffold then w.train(cfg.rest, id, s.model, s.cGlobal, s.cLocals[id], x)
    else w.train(cfg.rest, id, s.model, [], [], x)
  }

  datatype Trained = Trained(results: seq<ClientResult>, outputs: seq<TrainOutput>, machine: Machine)

  /** The first n selected clients, trained one after the other from the same global state. */
  function TrainCohort(w: World, cfg: Experiment, s: State, selected: seq<nat>, n: nat, x: Machine): (r: Trained)
    requires ProperWorld(w) && ValidExperiment(cfg) && WellFormed(cfg.server, s) && ProperMachine(w, x)
    requires n <= |selected| && DistinctBelow(selected, cfg.server.numClients)
    ensures |r.results| == |r.outputs| == n && ProperMachine(w, r.machine)
    ensures forall i :: 0 <= i < n ==>
      && r.results[i].clientId == selected[i] && r.results[i].numSamples > 0 && |r.results[i].delta| == |s.model|
      && (cfg.server.algorithm == Scaffold ==>
            && |r.results[i].newCLocal| == |s.model|
            && r.results[i].deltaC == Minus(r.results[i].newCLocal, s.cLocals[selected[i]]))
  {
    if n == 0 then Trained([], [], x)
    else
      var before := TrainCohort(w, cfg, s, selected, n - 1, x);
      var (out, machine) := CallTrain(w, cfg, s, selected[n - 1], before.machine);
      Trained(before.results + [ResultOf(w, cfg, s, selected[n - 1], out)], before.outputs + [out], machine)
  }

  /** Under DP every transmitted update is within the clip norm. */
  lemma {:induction false} CohortIsClipped(w: World, cfg: Experiment, s: State, selected: seq<nat>, n: nat, x: Machine)
    requires ProperWorld(w) && ValidExperiment(cfg) && WellFormed(cfg.server, s) && ProperMachine(w, x)
    requires n <= |selected| && DistinctBelow(selected, cfg.server.numClients) && cfg.server.dpEnabled
    ensures AllClipped(TrainCohort(w, cfg, s, selected, n, x).results, cfg.server.updateClipNorm)
  {
    hide TrainCohort, AllClipped;
    if n == 0 {
      NobodyTrained(w, cfg, s, selected, x);
    } else {
      CohortIsClipped(w, cfg, s, selected, n - 1, x);
      var last := LastIsClipped(w, cfg, s, selected, n, x);
      AllClippedAppend(TrainCohort(w, cfg, s, selected, n - 1, x).results, last, cfg.server.updateClipNorm);
    }
  }

  lemma NobodyTrained(w: World, cfg: Experiment, s: State, selected: seq<nat>, x: Machine)
    requires ProperWorld(w) && ValidExperiment(cfg) && WellFormed(cfg.server, s) && ProperMachine(w, x)
    requires DistinctBelow(selected, cfg.server.numClients)
    ensures AllClipped(TrainCohort(w, cfg, s, selected, 0, x).results, cfg.server.updateClipNorm)
  {}

  lemma LastIsClipped(w: World, cfg: Experiment, s: State, selected: seq<nat>, n: nat, x: Machine)
    returns (last: ClientResult)
    requires ProperWorld(w) && ValidExperiment(cfg) && WellFormed(cfg.server, s) && ProperMachine(w, x)
    requires 0 < n <= |selected| && DistinctBelow(selected, cfg.server.numClients) && cfg.server.dpEnabled
    ensures TrainCohort(w, cfg, s, selected, n, x).results
         == TrainCohort(w, cfg, s, selected, n - 1, x).results + [last]
    ensures NormSq(last.delta) <= cfg.server.updateClipNorm * cfg.server.updateClipNorm
  {
    hide NormSq, CallTrain;
    var before := TrainCohort(w, cfg, s, selected, n - 1, x);
    var out := CallTrain(w, cfg, s, selected[n - 1], before.machine).0;
    TrainsWell(w, cfg, s, selected[n - 1], before.machine);
    last := ResultOf(w, cfg, s, selected[n - 1], out);
    ResultIsClipped(w, cfg, s, selected[n - 1], out);
  }

  lemma TrainsWell(w: World, cfg: Experiment, s: State, id: nat, x: Machine)
    requires ProperWorld(w) && ValidExperiment(cfg) && WellFormed(cfg.server, s) && ProperMachine(w, x)
    requires id < cfg.server.numClients
    ensures var out := CallTrain(w, cfg, s, id, x).0; |out.rawDelta| == |s.model| && out.localSteps > 0
  {}

  lemma ResultIsClipped(w: World, cfg: Experiment, s: State, id: nat, out: TrainOutput)
    requires Standard(w.m) && ValidExperiment(cfg) && WellFormed(cfg.server, s) && id < cfg.server.numClients
    requires |out.rawDelta| == |s.model| && out.localSteps > 0 && cfg.server.dpEnabled
    ensures NormSq(ResultOf(w, cfg, s, id, out).delta) <= cfg.server.updateClipNorm * cfg.server.updateClipNorm
  {
    var c := cfg.server.updateClipNorm;
    ClippedNorm(w.m, out.rawDelta, c);
    NormBound(w.m, Transmitted(w, cfg, out.rawDelta), c);
  }

  lemma AllClippedAppend(results: seq<ClientResult>, r: ClientResult, c: real)
    requires AllClipped(results, c) && NormSq(r.delta) <= c * c
    ensures AllClipped(results + [r], c)
  {}

  // ----- one round -----

  /** The row of a round. `statistics` are the drift, variance, clipping and loss figures of the cohort. */
  datatype HistoryRow = HistoryRow(round: nat, cohortSize: nat, testLoss: real, testAcc: real, epsilon: Float,
                                   rdp: seq<Float>, statistics: seq<real>, aggregateNoiseNorm: real)

  /** Everything a run carries from one round to the next. */
  datatype Runtime = Runtime(server: State, sampler: Rng, machine: Machine, privacy: Option<Rng>,
                             steps: Option<nat>, history: seq<HistoryRow>)

  /** The shape of a runtime at the boundary after n rounds. */
  ghost predicate AtBoundary(w: World, cfg: Experiment, rt: Runtime, n: nat) {
    && WellFormed(cfg.server, rt.server) && |rt.server.model| == |w.initialModel(cfg.rest, cfg.seed)|
    && rt.server.roundCount == n && |rt.history| == n
    && (forall i :: 0 <= i < n ==> rt.history[i].round == i + 1)
    && ProperMachine(w, rt.machine)
    && (rt.privacy.Some? <==> cfg.server.dpEnabled)
    && rt.steps == if cfg.server.dpEnabled then Some(n) else None
  }

  function Orders(): (orders: seq<int>)
    ensures ValidOrders(orders)
  {
    Grid([]).value
  }

  function EpsilonAfter(w: World, cfg: Experiment, steps: nat): Float
    requires ValidExperiment(cfg)
  {
    Epsilon(w.m, Orders(), cfg.sampleRate, cfg.server.noiseMultiplier, cfg.targetDelta, steps)
  }

  function RdpAfter(w: World, cfg: Experiment, steps: nat): seq<Float>
    requires ValidExperiment(cfg)
  {
    Curve(w.m, Orders(), cfg.sampleRate, cfg.server.noiseMultiplier, steps)
  }

  ghost predicate Ready(w: World, cfg: Experiment) {
    ProperWorld(w) && ValidExperiment(cfg)
  }

  lemma TrainedFits(w: World, cfg: Experiment, s: State, selected: seq<nat>, x: Machine)
    requires Ready(w, cfg) && WellFormed(cfg.server, s) && ProperMachine(w, x)
    requires DistinctBelow(selected, cfg.server.numClients)
    ensures var results := TrainCohort(w, cfg, s, selected, |selected|, x).results;
            && Fits(cfg.server, results, |s.model|) && DistinctIds(results)
            && !DividesByZero(cfg.server, results)
            && (cfg.server.algorithm == Scaffold ==> ReportsChange(s, results))
  {
    CohortFits(cfg, s, selected, TrainCohort(w, cfg, s, selected, |selected|, x).results);
  }

  lemma CohortFits(cfg: Experiment, s: State, selected: seq<nat>, results: seq<ClientResult>)
    requires WellFormed(cfg.server, s) && DistinctBelow(selected, cfg.server.numClients) && |results| == |selected|
    requires forall i :: 0 <= i < |results| ==>
      && results[i].clientId == selected[i] && results[i].numSamples > 0 && |results[i].delta| == |s.model|
      && (cfg.server.algorithm == Scaffold ==>
            && |results[i].newCLocal| == |s.model|
            && results[i].deltaC == Minus(results[i].newCLocal, s.cLocals[selected[i]]))
    ensures Fits(cfg.server, results, |s.model|) && DistinctIds(results)
    ensures !DividesByZero(cfg.server, results)
    ensures cfg.server.algorithm == Scaffold ==> ReportsChange(s, results)
  {
    if results != [] {
      assert results[|results| - 1].numSamples > 0;
      assert TotalSamples(results) > 0;
    }
  }

  datatype Communication = Communication(selected: seq<nat>, sampler: Rng, trained: Trained, outcome: Aggregated)

  /** The cohort is drawn, trained and aggregated. */
  function Communicate(w: World, cfg: Experiment, rt: Runtime, round: nat): (c: Communication)
    requires Ready(w, cfg) && round > 0 && AtBoundary(w, cfg, rt, round - 1)
    ensures WellFormed(cfg.server, c.outcome.state) && |c.outcome.state.model| == |rt.server.model|
    ensures c.outcome.state.roundCount == round && ProperMachine(w, c.trained.machine)
    ensures c.outcome.generator.Some? <==> rt.privacy.Some?
  {
    CohortIsDistinct(w, cfg, rt.sampler);
    var drawn := SampleClientIds(w, cfg, rt.sampler);
    TrainedFits(w, cfg, rt.server, drawn.0, rt.machine);
    var trained := TrainCohort(w, cfg, rt.server, drawn.0, |drawn.0|, rt.machine);
    Communication(drawn.0, drawn.1, trained,
                  Aggregate(cfg.server, w.normal, rt.server, rt.privacy, trained.results).value)
  }

  /** Loss and accuracy of the new model; loading the test data advances the generators too. */
  function Evaluated(w: World, cfg: Experiment, c: Communication): ((real, real), Machine) {
    w.evaluate(cfg.rest, c.outcome.state.model, c.trained.machine)
  }

  function RowOf(w: World, cfg: Experiment, c: Communication, round: nat): (row: HistoryRow)
    requires ValidExperiment(cfg)
    ensures row.round == round
  {
    var (loss, acc) := Evaluated(w, cfg, c).0;
    HistoryRow(round, |c.selected|, loss, acc, if cfg.server.dpEnabled then EpsilonAfter(w, cfg, round) else NaN,
               if cfg.server.dpEnabled then RdpAfter(w, cfg, round) else [],
               w.statistics(cfg, c.trained.outputs),
               NoiseReport(w.m, cfg.server, c.trained.results, c.outcome.noise))
  }

  /** The boundary that a round's communication leads to. */
  function Advance(w: World, cfg: Experiment, rt: Runtime, c: Communication, row: HistoryRow): (next: Runtime)
    requires ProperWorld(w) && AtBoundary(w, cfg, rt, |rt.history|) && row.round == |rt.history| + 1
    requires WellFormed(cfg.server, c.outcome.state) && |c.outcome.state.model| == |rt.server.model|
    requires c.outcome.state.roundCount == row.round && ProperMachine(w, c.trained.machine)
    requires c.outcome.generator.Some? <==> rt.privacy.Some?
    ensures AtBoundary(w, cfg, next, row.round)
    ensures next.server == c.outcome.state && next.history == rt.history + [row]
  {
    Runtime(c.outcome.state, c.sampler, Evaluated(w, cfg, c).1, c.outcome.generator,
            if cfg.server.dpEnabled then Some(rt.steps.value + 1) else None, rt.history + [row])
  }

  /** The runtime after one more round, numbered `round`. */
  function Round(w: World, cfg: Experiment, rt: Runtime, round: nat): (next: Runtime)
    requires Ready(w, cfg) && round > 0 && AtBoundary(w, cfg, rt, round - 1)
    ensures AtBoundary(w, cfg, next, round)
    ensures next.server == Communicate(w, cfg, rt, round).outcome.state
  {
    var c := Communicate(w, cfg, rt, round);
    Advance(w, cfg, rt, c, RowOf(w, cfg, c, round))
  }

  /** A freshly started process; the privacy generator is seeded separately from the experiment. */
  function Initial(w: World, cfg: Experiment, privacySeed: int): (rt: Runtime)
    requires Ready(w, cfg)
    ensures AtBoundary(w, cfg, rt, 0)
  {
    var model := w.initialModel(cfg.rest, cfg.seed);
    var controls := if cfg.server.algorithm == Scaffold
      then State(model, Zero(|model|), seq(cfg.server.numClients, _ => Zero(|model|)), 0)
      else State(model, [], [], 0);
    Runtime(controls, w.seededSampler(cfg.seed), w.seededMachine(cfg.seed),
            if cfg.server.dpEnabled then Some(w.seededPrivacy(privacySeed)) else None,
            if cfg.server.dpEnabled then Some(0) else None, [])
  }

  /** The uninterrupted run: the runtime after n rounds. */
  function After(w: World, cfg: Experiment, privacySeed: int, n: nat): (rt: Runtime)
    requires Ready(w, cfg)
    ensures AtBoundary(w, cfg, rt, n)
  {
    if n == 0 then Initial(w, cfg, privacySeed) else Round(w, cfg, After(w, cfg, privacySeed, n - 1), n)
  }

  /** Without DP the privacy seed plays no part, so there is one uninterrupted run per configuration. */
  lemma {:induction false} SeedIrrelevantWithoutDp(w: World, cfg: Experiment, a: int, b: int, n: nat)
    requires Ready(w, cfg) && !cfg.server.dpEnabled
    ensures After(w, cfg, a, n) == After(w, cfg, b, n)
  {
    if n > 0 { SeedIrrelevantWithoutDp(w, cfg, a, b, n - 1); }
  }

  // ----- what holds at every round boundary -----

  lemma {:induction false} ZeroColumn(d: nat, clients: nat, j: nat, n: nat)
    requires n <= clients && j < d
    ensures Column(seq(clients, _ => Zero(d)), j, n) == 0.0
  {
    if n > 0 { ZeroColumn(d, clients, j, n - 1); }
  }

  /** SCAFFOLD conservation: at every boundary of every run the global control variate is the mean of the local ones. */
  lemma {:induction false} ScaffoldMeanAtEveryBoundary(w: World, cfg: Experiment, privacySeed: int, n: nat)
    requires Ready(w, cfg) && cfg.server.algorithm == Scaffold
    ensures Conserved(cfg.server, After(w, cfg, privacySeed, n).server)
  {
    if n == 0 {
      var s := After(w, cfg, privacySeed, 0).server;
      forall j | 0 <= j < |s.model|
        ensures Mul(cfg.server.numClients as real, s.cGlobal[j]) == Column(s.cLocals, j, cfg.server.numClients)
      {
        ZeroColumn(|s.model|, cfg.server.numClients, j, cfg.server.numClients);
        assert s.cGlobal[j] == 0.0;
        assert Mul(cfg.server.numClients as real, 0.0) == 0.0;
      }
    } else {
      ScaffoldMeanAtEveryBoundary(w, cfg, privacySeed, n - 1);
      var rt := After(w, cfg, privacySeed, n - 1);
      CohortIsDistinct(w, cfg, rt.sampler);
      var selected := SampleClientIds(w, cfg, rt.sampler).0;
      TrainedFits(w, cfg, rt.server, selected, rt.machine);
      var results := TrainCohort(w, cfg, rt.server, selected, |selected|, rt.machine).results;
      ScaffoldConserves(cfg.server, w.normal, rt.server, rt.privacy, results);
    }
  }

  /** The row of round n reports the epsilon after n steps. */
  lemma LastRowEpsilon(w: World, cfg: Experiment, privacySeed: int, n: nat)
    requires Ready(w, cfg) && cfg.server.dpEnabled && n > 0
    ensures After(w, cfg, privacySeed, n).history[n - 1].epsilon == EpsilonAfter(w, cfg, n)
  {}

  lemma EpsilonAfterMono(w: World, cfg: Experiment, i: nat, j: nat)
    requires Ready(w, cfg) && i <= j
    ensures AtMost(EpsilonAfter(w, cfg, i), EpsilonAfter(w, cfg, j))
  {
    EpsilonMono(w.m, Orders(), cfg.targetDelta, cfg.sampleRate, cfg.server.noiseMultiplier, i,
                cfg.sampleRate, cfg.server.noiseMultiplier, j);
  }
}
