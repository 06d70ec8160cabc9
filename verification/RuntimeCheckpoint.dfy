/** Round-boundary checkpoints: what is saved, and what a restore accepts. */
module RuntimeCheckpoint {
  import opened SortedInts
  import opened FederatedServer
  import opened FederatedRun

  const SCHEMA_VERSION := 2

  /** Collision-free hashes: a digest is a term over what was hashed. */
  datatype Fingerprint = FingerprintOf(semantic: Experiment)

  datatype NumpyPayload = NumpyPayload(bitGenerator: string, keys: seq<int>, position: int, hasGauss: int, cached: real)

  function NumpyToPayload(s: NumpyState): NumpyPayload {
    NumpyPayload(s.bitGenerator, seq(|s.keys|, i requires 0 <= i < |s.keys| => s.keys[i]), s.position, s.hasGauss,
                 s.cached)
  }

  /** Missing or negative keys are rejected, as the uint32 conversion does. */
  function NumpyFromPayload(p: NumpyPayload): Outcome<NumpyState> {
    if p.keys == [] then Error("checkpoint NumPy random keys are missing")
    else if exists k :: k in p.keys && k < 0 then Error("decode checkpoint NumPy random state")
    else
      assert forall i :: 0 <= i < |p.keys| ==> p.keys[i] in p.keys;
      Ok(NumpyState(p.bitGenerator, seq(|p.keys|, i requires 0 <= i < |p.keys| => p.keys[i] as nat),
                    p.position, p.hasGauss, p.cached))
  }

  /** The payload form of a generator state reads back to the state exactly when it has keys. */
  lemma NumpyRoundTrip(s: NumpyState)
    ensures NumpyFromPayload(NumpyToPayload(s)) == Ok(s) <==> s.keys != []
  {
    var p := NumpyToPayload(s);
    if s.keys != [] {
      assert forall i :: 0 <= i < |p.keys| ==> p.keys[i] >= 0;
      assert NumpyFromPayload(p).value.keys == s.keys;
    }
  }

  datatype Payload = Payload(schemaVersion: int, fingerprint: Fingerprint, algorithm: Algorithm, roundsCompleted: int,
                             history: seq<HistoryRow>, elapsed: real, server: Snapshot, sampler: Rng, python: Rng,
                             numpy: NumpyPayload, torch: Rng, cuda: seq<Rng>, privacy: Option<Rng>,
                             accountantSteps: Option<int>)

  datatype DigestFile = Hex(of: Payload) | Malformed

  datatype CsvRow = CsvRow(algorithm: Algorithm, row: HistoryRow)

  /** The path of a round log. */
  datatype LogName = LogName(resultsDir: string, algorithm: Algorithm)

  function LogOf(cfg: Experiment): LogName {
    LogName(cfg.resultsDir, cfg.server.algorithm)
  }

  type Logs = map<LogName, seq<CsvRow>>

  /** The files that processes sharing a control directory see: a round log for each results directory and algorithm,
      and one checkpoint with its digest. A log without an entry is missing or empty; [] is a header alone. */
  datatype Disk = Disk(csv: Logs, checkpoint: Option<Payload>, digest: Option<DigestFile>)

  function Rows(csv: Logs, log: LogName): seq<CsvRow> {
    if log in csv then csv[log] else []
  }

  function MakePayload(cfg: Experiment, rt: Runtime, round: nat, elapsed: real): Payload {
    Payload(SCHEMA_VERSION, FingerprintOf(cfg), cfg.server.algorithm, round, rt.history, elapsed,
            Export(cfg.server, rt.server), rt.sampler, rt.machine.python, NumpyToPayload(rt.machine.numpy),
            rt.machine.torch, rt.machine.cuda, rt.privacy,
            if rt.steps.Some? then Some(rt.steps.value) else None)
  }

  datatype Restored = Restored(runtime: Runtime, roundsCompleted: nat, elapsed: real)

  /** The checkpoint file, if it is there and its digest file vouches for it. */
  function VerifiedPayload(disk: Disk): Outcome<Payload> {
    if disk.checkpoint.None? then Error("runtime checkpoint does not exist")
    else if disk.digest.None? then Error("runtime checkpoint digest is missing")
    else if disk.digest.value.Malformed? then Error("runtime checkpoint digest file is malformed")
    else if disk.digest.value.of != disk.checkpoint.value then Error("runtime checkpoint SHA-256 digest mismatch")
    else Ok(disk.checkpoint.value)
  }

  /** The checks that need nothing but the payload and the configuration. */
  function CheckedHeader(cfg: Experiment, p: Payload): (r: Outcome<nat>)
    ensures r.Ok? ==> r.value == p.roundsCompleted == |p.history| <= cfg.rounds
  {
    if p.schemaVersion != SCHEMA_VERSION then Error("runtime checkpoint schema_version must be 2")
    else if p.fingerprint != FingerprintOf(cfg) then Error("configuration fingerprint does not match")
    else if p.algorithm != cfg.server.algorithm then Error("runtime checkpoint algorithm does not match")
    else if !(0 <= p.roundsCompleted <= cfg.rounds) then Error("runtime checkpoint rounds_completed is invalid")
    else if |p.history| != p.roundsCompleted then Error("history length does not match rounds_completed")
    else Ok(p.roundsCompleted as nat)
  }

  /** The CUDA states to use, unless their number is wrong for this machine. */
  function RestoredCuda(w: World, p: Payload, current: seq<Rng>): Outcome<seq<Rng>> {
    if w.devices > 0 && p.cuda != [] then
      if |p.cuda| != w.devices then Error("CUDA RNG state count does not match") else Ok(p.cuda)
    else Ok(current)
  }

  /** The checks made while the state is put back into a process whose runtime is `started`. */
  ghost function RestoredState(w: World, cfg: Experiment, started: Runtime, p: Payload, rounds: nat)
    : (r: Outcome<Restored>)
    ensures r.Ok? ==> r.value.roundsCompleted == rounds
  {
    if !Loadable(cfg.server, |started.server.model|, p.server) then Error("restore server runtime state")
    else if p.server.roundCount != rounds then Error("server round count does not match rounds_completed")
    else if NumpyFromPayload(p.numpy).Error? then Error("restore runtime RNG state")
    else if RestoredCuda(w, p, started.machine.cuda).Error? then Error("CUDA RNG state count does not match")
    else if p.privacy.Some? != started.privacy.Some? then Error("privacy RNG state does not match")
    else if p.accountantSteps.Some? != started.steps.Some? then Error("privacy accountant state does not match")
    else if p.accountantSteps.Some? && p.accountantSteps.value != rounds then
      Error("checkpoint accountant steps do not match rounds_completed")
    else if p.elapsed < 0.0 then Error("runtime checkpoint elapsed_sec must be non-negative")
    else
      Ok(Restored(Runtime(State(p.server.modelState, p.server.cGlobal, p.server.cLocals, p.server.roundCount),
                          p.sampler,
                          Machine(p.python, NumpyFromPayload(p.numpy).value, p.torch,
                                  RestoredCuda(w, p, started.machine.cuda).value),
                          p.privacy, if p.accountantSteps.Some? then Some(rounds) else None, p.history),
                  rounds, p.elapsed))
  }

  /** restore_runtime_checkpoint in a process whose runtime is `started`. */
  ghost function Restore(w: World, cfg: Experiment, started: Runtime, disk: Disk): Outcome<Restored> {
    var payload := VerifiedPayload(disk);
    if payload.Error? then Error(payload.message)
    else
      var rounds := CheckedHeader(cfg, payload.value);
      if rounds.Error? then Error(rounds.message)
      else RestoredState(w, cfg, started, payload.value, rounds.value)
  }

  /** Whatever the files hold, a restore succeeds exactly on a checkpoint that its digest vouches for, of this schema,
      configuration and algorithm, whose history length, server round count and accountant steps all equal its number of
      rounds, and whose states fit this process. */
  lemma RestoreAgrees(w: World, cfg: Experiment, started: Runtime, disk: Disk)
    ensures Restore(w, cfg, started, disk).Ok? <==>
      && disk.checkpoint.Some? && disk.digest == Some(Hex(disk.checkpoint.value))
      && var p := disk.checkpoint.value;
         && p.schemaVersion == 2 && p.fingerprint.semantic == cfg && p.algorithm == cfg.server.algorithm
         && 0 <= p.roundsCompleted <= cfg.rounds
         && |p.history| == p.roundsCompleted == p.server.roundCount
         && Loadable(cfg.server, |started.server.model|, p.server)
         && p.numpy.keys != [] && (forall k :: k in p.numpy.keys ==> k >= 0)
         && (w.devices > 0 && p.cuda != [] ==> |p.cuda| == w.devices)
         && (p.privacy.Some? <==> started.privacy.Some?)
         && (p.accountantSteps == if started.steps.Some? then Some(p.roundsCompleted) else None)
         && p.elapsed >= 0.0
    ensures Restore(w, cfg, started, disk).Ok? ==>
      var rt, p := Restore(w, cfg, started, disk).value.runtime, disk.checkpoint.value;
      && |rt.history| == rt.server.roundCount == Restore(w, cfg, started, disk).value.roundsCompleted
      && rt.history == p.history && rt.server.model == p.server.modelState && rt.sampler == p.sampler
      && (rt.steps.Some? <==> started.steps.Some?) && (rt.steps.Some? ==> rt.steps.value == |rt.history|)
  {
    hide Loadable, RestoredState, CheckedHeader;
    if VerifiedPayload(disk).Ok? {
      var p := VerifiedPayload(disk).value;
      HeaderExactly(cfg, p);
      if CheckedHeader(cfg, p).Ok? { StateExactly(w, cfg, started, p, CheckedHeader(cfg, p).value); }
    }
  }

  lemma HeaderExactly(cfg: Experiment, p: Payload)
    ensures CheckedHeader(cfg, p).Ok? <==>
      && p.schemaVersion == 2 && p.fingerprint.semantic == cfg && p.algorithm == cfg.server.algorithm
      && 0 <= p.roundsCompleted <= cfg.rounds && |p.history| == p.roundsCompleted
  {}

  lemma StateExactly(w: World, cfg: Experiment, started: Runtime, p: Payload, rounds: nat)
    ensures RestoredState(w, cfg, started, p, rounds).Ok? <==>
      && p.server.roundCount == rounds && Loadable(cfg.server, |started.server.model|, p.server)
      && p.numpy.keys != [] && (forall k :: k in p.numpy.keys ==> k >= 0)
      && (w.devices > 0 && p.cuda != [] ==> |p.cuda| == w.devices)
      && (p.privacy.Some? <==> started.privacy.Some?)
      && (p.accountantSteps == if started.steps.Some? then Some(rounds) else None)
      && p.elapsed >= 0.0
    ensures RestoredState(w, cfg, started, p, rounds).Ok? ==>
      var rt := RestoredState(w, cfg, started, p, rounds).value.runtime;
      && rt.server.roundCount == rounds && rt.history == p.history && rt.server.model == p.server.modelState
      && rt.sampler == p.sampler && rt.steps == if started.steps.Some? then Some(rounds) else None
  {
    hide Loadable;
  }

  /** A saved boundary restores to exactly itself, in any process of the same experiment, unless the clock ran
      backwards past the start; under another configuration it is rejected. */
  lemma SaveRestore(w: World, cfg: Experiment, other: Experiment, started: Runtime, rt: Runtime, round: nat,
                    elapsed: real, disk: Disk)
    requires round <= cfg.rounds && AtBoundary(w, cfg, rt, round) && AtBoundary(w, other, started, 0)
    requires disk.checkpoint == Some(MakePayload(cfg, rt, round, elapsed))
    requires disk.digest == Some(Hex(MakePayload(cfg, rt, round, elapsed)))
    ensures Restore(w, other, started, disk).Ok? <==> cfg == other && elapsed >= 0.0
    ensures cfg == other && elapsed >= 0.0 ==> Restore(w, other, started, disk) == Ok(Restored(rt, round, elapsed))
  {
    NumpyRoundTrip(rt.machine.numpy);
  }

  /** The resume check on the round CSV. */
  predicate CsvMatches(csv: Logs, log: LogName, rounds: nat) {
    rounds == 0
    || (&& log in csv && |csv[log]| == rounds
        && forall i :: 0 <= i < rounds ==> csv[log][i].row.round == i + 1 && csv[log][i].algorithm == log.algorithm)
  }
}
