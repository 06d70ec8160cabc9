/** The program of one process: server, accountant, generators and history updated in place round by round, and the
    files it writes. Proved equal to the reference semantics of a session. */
module FederatedProcess {
  import opened SortedInts
  import opened FederatedServer
  import opened DpAccountant
  import opened FederatedRun
  import opened RuntimeCheckpoint
  import opened ResumableRuntime
  import opened ResumableExperiment

  /** The files that processes sharing a control directory see. */
  class Workspace {
    var csv: Logs
    var checkpoint: Option<Payload>
    var digest: Option<DigestFile>

    constructor ()
      ensures Contents() == Disk(map[], None, None)
    {
      csv, checkpoint, digest := map[], None, None;
    }

    function Contents(): Disk
      reads this
    {
      Disk(csv, checkpoint, digest)
    }

    /** CSVLogger opened for appending or afresh; an empty file gets a header. */
    method OpenLog(log: LogName, append: bool)
      modifies this`csv
      ensures csv == old(csv)[log := if append then Rows(old(csv), log) else []]
    {
      if !append || log !in csv { csv := csv[log := []]; }
    }

    method Log(log: LogName, row: CsvRow)
      requires log in csv
      modifies this`csv
      ensures csv == old(csv)[log := Rows(old(csv), log) + [row]]
    {
      csv := csv[log := csv[log] + [row]];
    }
  }

  class Process {
    const w: World
    const cfg: Experiment
    const server: Server
    const accountant: MomentsAccountant?
    var sampler: Rng
    var machine: Machine
    var history: seq<HistoryRow>

    function Now(): Runtime
      reads this, server, accountant
    {
      Runtime(server.Current(), sampler, machine, server.generator,
              if accountant == null then None else Some(accountant.steps), history)
    }

    /** The objects belong together. */
    ghost predicate Wired()
      reads this, server, accountant
    {
      && Ready(w, cfg)
      && server.Valid() && server.m == w.m && server.cfg == cfg.server && server.normal == w.normal
      && (accountant != null <==> cfg.server.dpEnabled)
      && (accountant != null ==>
            && accountant.Valid() && accountant.m == w.m && accountant.noiseMultiplier == cfg.server.noiseMultiplier
            && accountant.sampleRate == cfg.sampleRate && accountant.targetDelta == cfg.targetDelta
            && accountant.orders == Orders())
    }

    ghost predicate Valid()
      reads this, server, accountant
    {
      Wired() && AtBoundary(w, cfg, Now(), |history|)
    }

    constructor (w: World, cfg: Experiment, server: Server, accountant: MomentsAccountant?)
      requires Ready(w, cfg)
      ensures this.w == w && this.cfg == cfg && this.server == server && this.accountant == accountant
      ensures sampler == w.seededSampler(cfg.seed) && machine == w.seededMachine(cfg.seed) && history == []
    {
      this.w, this.cfg, this.server, this.accountant := w, cfg, server, accountant;
      sampler, machine, history := w.seededSampler(cfg.seed), w.seededMachine(cfg.seed), [];
    }

    /** The selected clients train in turn from the broadcast state, consuming the process generators. */
    method TrainSelected(selected: seq<nat>) returns (results: seq<ClientResult>, outputs: seq<TrainOutput>)
      requires Valid() && DistinctBelow(selected, cfg.server.numClients)
      modifies this`machine
      ensures Wired() && ProperMachine(w, old(machine))
      ensures var trained := TrainCohort(w, cfg, server.Current(), selected, |selected|, old(machine));
              results == trained.results && outputs == trained.outputs && machine == trained.machine
    {
      ghost var s, start := server.Current(), machine;
      results, outputs := [], [];
      for i := 0 to |selected|
        invariant Wired() && server.Current() == s && ProperMachine(w, machine)
        invariant var trained := TrainCohort(w, cfg, s, selected, i, start);
                  results == trained.results && outputs == trained.outputs && machine == trained.machine
      {
        var result, out := TrainOne(selected[i]);
        results := results + [result];
        outputs := outputs + [out];
      }
    }

    /** One client trains from the broadcast state and transmits its result. */
    method TrainOne(id: nat) returns (result: ClientResult, out: TrainOutput)
      requires Wired() && ProperMachine(w, machine) && id < cfg.server.numClients
      modifies this`machine
      ensures Wired() && ProperMachine(w, machine)
      ensures var trained := CallTrain(w, cfg, server.Current(), id, old(machine));
              result == ResultOf(w, cfg, server.Current(), id, trained.0) && out == trained.0 && machine == trained.1
    {
      var trained := CallTrain(w, cfg, server.Current(), id, machine);
      out, machine := trained.0, trained.1;
      result := ResultOf(w, cfg, server.Current(), id, out);
    }

    /** The accountant takes one step and reports its epsilon and its total RDP curve. */
    method Account() returns (epsilon: Float, rdp: seq<Float>)
      requires Wired()
      modifies accountant
      ensures Wired()
      ensures accountant != null ==> accountant.steps == old(accountant.steps) + 1
      ensures epsilon == if accountant != null then EpsilonAfter(w, cfg, accountant.steps) else NaN
      ensures rdp == if accountant != null then RdpAfter(w, cfg, accountant.steps) else []
    {
      epsilon, rdp := NaN, [];
      if accountant != null {
        var _ := accountant.Step(1);
        var estimate := accountant.Estimate(None);
        epsilon, rdp := estimate.value.0, estimate.value.2;
      }
    }

    /** Sample, train, aggregate. */
    method CommunicationRound(round: nat) returns (selected: seq<nat>, outputs: seq<TrainOutput>, noiseNorm: real)
      requires Valid() && round == |history| + 1
      modifies this`sampler, this`machine, server
      ensures Wired()
      ensures var c := Communicate(w, cfg, old(Now()), round);
        && selected == c.selected && outputs == c.trained.outputs
        && noiseNorm == NoiseReport(w.m, cfg.server, c.trained.results, c.outcome.noise)
        && Now() == old(Now()).(server := c.outcome.state, sampler := c.sampler, machine := c.trained.machine,
                                privacy := c.outcome.generator)
    {
      hide TrainCohort, Aggregate, SampleClientIds, NoiseReport, ValidExperiment, EpsilonAfter, ProperMachine;
      CohortIsDistinct(w, cfg, sampler);
      TrainedFits(w, cfg, server.Current(), SampleClientIds(w, cfg, sampler).0, machine);
      var results;
      selected, results, outputs := DrawAndTrain();
      var norm := server.AggregateRound(results);
      noiseNorm := norm.value;
    }

    /** Sample and train. */
    method DrawAndTrain() returns (selected: seq<nat>, results: seq<ClientResult>, outputs: seq<TrainOutput>)
      requires Valid()
      modifies this`sampler, this`machine
      ensures Wired()
      ensures var drawn := SampleClientIds(w, cfg, old(sampler));
        && DistinctBelow(drawn.0, cfg.server.numClients) && ProperMachine(w, old(machine))
        && selected == drawn.0 && sampler == drawn.1
        && var trained := TrainCohort(w, cfg, server.Current(), drawn.0, |drawn.0|, old(machine));
           results == trained.results && outputs == trained.outputs && machine == trained.machine
    {
      CohortIsDistinct(w, cfg, sampler);
      var drawn := SampleClientIds(w, cfg, sampler);
      selected, sampler := drawn.0, drawn.1;
      results, outputs := TrainSelected(selected);
    }

    /** The state between communication and recording. */
    ghost predicate Communicated(before: Runtime, c: Communication, round: nat)
      reads this, server, accountant
    {
      && Wired() && AtBoundary(w, cfg, before, |before.history|) && round == |before.history| + 1
      && WellFormed(cfg.server, c.outcome.state) && |c.outcome.state.model| == |before.server.model|
      && c.outcome.state.roundCount == round && ProperMachine(w, c.trained.machine)
      && (c.outcome.generator.Some? <==> before.privacy.Some?)
      && Now() == before.(server := c.outcome.state, sampler := c.sampler, machine := c.trained.machine,
                          privacy := c.outcome.generator)
    }

    /** Account and evaluate. */
    method MakeRow(ghost c: Communication, cohort: nat, outputs: seq<TrainOutput>, noiseNorm: real, round: nat)
      returns (row: HistoryRow)
      requires Wired() && server.model == c.outcome.state.model
      requires cohort == |c.selected| && outputs == c.trained.outputs
      requires noiseNorm == NoiseReport(w.m, cfg.server, c.trained.results, c.outcome.noise)
      requires accountant != null ==> accountant.steps + 1 == round
      requires machine == c.trained.machine
      modifies this`machine, accountant
      ensures Wired() && row == RowOf(w, cfg, c, round) && machine == Evaluated(w, cfg, c).1
      ensures accountant != null ==> accountant.steps == round
    {
      hide EpsilonAfter, RdpAfter, NoiseReport, ProperWorld, ValidExperiment, Orders, WellFormed;
      var epsilon, rdp := Account();
      var ((loss, acc), advanced) := w.evaluate(cfg.rest, server.model, machine);
      machine := advanced;
      row := HistoryRow(round, cohort, loss, acc, epsilon, rdp, w.statistics(cfg, outputs), noiseNorm);
    }

    /** Append the row to the history. */
    method Record(ghost before: Runtime, ghost c: Communication, cohort: nat, outputs: seq<TrainOutput>,
                  noiseNorm: real,
                  round: nat) returns (row: HistoryRow)
      requires Communicated(before, c, round) && cohort == |c.selected| && outputs == c.trained.outputs
      requires noiseNorm == NoiseReport(w.m, cfg.server, c.trained.results, c.outcome.noise)
      modifies this`history, this`machine, accountant
      ensures Valid()
      ensures row == RowOf(w, cfg, c, round) && Now() == Advance(w, cfg, before, c, row)
    {
      hide NoiseReport, RowOf, ProperWorld, ValidExperiment, Evaluated;
      row := MakeRow(c, cohort, outputs, noiseNorm, round);
      hide AtBoundary, WellFormed, ProperMachine;
      history := history + [row];
      assert Now() == Advance(w, cfg, before, c, row);
    }

    /** One round: communicate, account, evaluate, append to the history. */
    method RunRound(round: nat) returns (row: HistoryRow)
      requires Valid() && round == |history| + 1
      modifies this, server, accountant
      ensures Valid()
      ensures Now() == Round(w, cfg, old(Now()), round)
      ensures row == RowOf(w, cfg, Communicate(w, cfg, old(Now()), round), round)
    {
      ghost var before := Now();
      ghost var c := Communicate(w, cfg, before, round);
      var selected, outputs, noiseNorm := CommunicationRound(round);
      row := Record(before, c, |selected|, outputs, noiseNorm, round);
    }

    /** A round as a step of the runner. */
    method RunStep(ghost run: Runner, round: nat) returns (row: HistoryRow)
      requires Valid() && round == |history| + 1 && Drives(run, w, cfg)
      modifies this, server, accountant
      ensures Valid() && |history| == round
      ensures (Now(), row) == run.step(old(Now()), round)
    {
      ghost var next := Round(w, cfg, Now(), round);
      row := RunRound(round);
    }

    /** save_runtime_checkpoint: replace the checkpoint, then its digest; a killed process makes fewer writes. */
    method Save(files: Workspace, round: nat, elapsed: real, writes: nat)
      requires Wired()
      modifies files`checkpoint, files`digest
      ensures var payload := MakePayload(cfg, Now(), round, elapsed);
        && files.checkpoint == (if writes >= 1 then Some(payload) else old(files.checkpoint))
        && files.digest == (if writes >= 2 then Some(Hex(payload)) else old(files.digest))
    {
      var exported := server.ExportRuntimeState();
      var payload := Payload(SCHEMA_VERSION, FingerprintOf(cfg), cfg.server.algorithm, round, history, elapsed,
                             exported, sampler, machine.python, NumpyToPayload(machine.numpy), machine.torch,
                             machine.cuda, server.generator,
                             if accountant != null then Some(accountant.steps) else None);
      if writes >= 1 { files.checkpoint := Some(payload); }
      if writes >= 2 { files.digest := Some(Hex(payload)); }
    }

    /** restore_runtime_checkpoint into a freshly started process. */
    method RestoreFrom(files: Workspace) returns (r: Outcome<(nat, real)>)
      requires Valid()
      requires var spec := Restore(w, cfg, Now(), files.Contents());
        spec.Ok? ==> AtBoundary(w, cfg, spec.value.runtime, spec.value.roundsCompleted)
      modifies this, server, accountant
      ensures var spec := Restore(w, cfg, old(Now()), files.Contents());
        && (r.Ok? <==> spec.Ok?)
        && (r.Ok? ==>
              Valid() && Now() == spec.value.runtime && r.value == (spec.value.roundsCompleted, spec.value.elapsed))
        && (r.Error? ==> r.message == spec.message)
      ensures r.Ok? ==> |history| == r.value.0 <= cfg.rounds
    {
      hide RestoredState, Process.Wired;
      var payload := VerifiedPayload(files.Contents());
      if payload.Error? { return Error(payload.message); }
      var rounds := CheckedHeader(cfg, payload.value);
      if rounds.Error? { return Error(rounds.message); }
      r := RestoreState(payload.value, rounds.value);
    }

    /** Puts the state back piece by piece; a failure leaves the process to be discarded. */
    method RestoreState(p: Payload, rounds: nat) returns (r: Outcome<(nat, real)>)
      requires Valid() && |p.history| == rounds
      requires var spec := RestoredState(w, cfg, Now(), p, rounds);
        spec.Ok? ==> AtBoundary(w, cfg, spec.value.runtime, rounds)
      modifies this, server, accountant
      ensures var spec := RestoredState(w, cfg, old(Now()), p, rounds);
        && (r.Ok? <==> spec.Ok?)
        && (r.Ok? ==> Valid() && Now() == spec.value.runtime && r.value == (rounds, spec.value.elapsed))
        && (r.Error? ==> r.message == spec.message)
    {
      hide ProperWorld, ValidExperiment, Orders, Loadable, RestoredCuda, NumpyFromPayload;
      var loaded := server.LoadRuntimeState(p.server);
      if loaded.Error? { return Error("restore server runtime state"); }
      if server.roundCount != rounds { return Error("server round count does not match rounds_completed"); }
      sampler := p.sampler;
      var numpy := NumpyFromPayload(p.numpy);
      if numpy.Error? { return Error("restore runtime RNG state"); }
      var cuda := RestoredCuda(w, p, machine.cuda);
      if cuda.Error? { return Error("CUDA RNG state count does not match"); }
      machine := Machine(p.python, numpy.value, p.torch, cuda.value);
      if p.privacy.Some? != server.generator.Some? { return Error("privacy RNG state does not match"); }
      server.generator := p.privacy;
      if p.accountantSteps.Some? != (accountant != null) { return Error("privacy accountant state does not match"); }
      if accountant != null {
        if p.accountantSteps.value != rounds {
          return Error("checkpoint accountant steps do not match rounds_completed");
        }
        accountant.steps := rounds;
      }
      if p.elapsed < 0.0 { return Error("runtime checkpoint elapsed_sec must be non-negative"); }
      history := p.history;
      return Ok((rounds, p.elapsed));
    }
  }

  /** The start of run_resumable_experiment: seeds, model, server, accountant, sampler. */
  method Start(w: World, cfg: Experiment, privacySeed: int) returns (p: Process)
    requires Ready(w, cfg)
    ensures fresh(p) && fresh(p.server) && (p.accountant != null ==> fresh(p.accountant))
    ensures p.w == w && p.cfg == cfg && p.Valid() && p.Now() == Initial(w, cfg, privacySeed)
  {
    var generator := if cfg.server.dpEnabled then Some(w.seededPrivacy(privacySeed)) else None;
    var server := new Server(w.m, cfg.server, w.normal, w.initialModel(cfg.rest, cfg.seed), generator);
    var accountant: MomentsAccountant? := null;
    if cfg.server.dpEnabled {
      var made := NewAccountant(w.m, cfg.server.noiseMultiplier, cfg.sampleRate, cfg.targetDelta, []);
      accountant := made.value;
    }
    p := new Process(w, cfg, server, accountant);
    assert p.Now() == Initial(w, cfg, privacySeed);
  }

  /** The writes of one round; ending is None when the process goes on to the next round. */
  method WriteRoundFiles(ghost run: Runner, p: Process, files: Workspace, plan: Plan, row: HistoryRow, round: nat,
                         writes: nat) returns (ending: Option<Ending>, left: nat)
    requires p.Wired() && LogOf(p.cfg) in files.csv && run.cfg == p.cfg
    modifies files
    ensures var spec := WriteRound(run, plan, old(files.Contents()), p.Now(), row, round, writes);
      files.Contents() == spec.disk && ending == spec.ending && left == spec.writes
    ensures LogOf(p.cfg) in files.csv
  {
    if writes == 0 { return Some(Crashed), 0; }
    files.Log(LogOf(p.cfg), CsvRow(p.cfg.server.algorithm, row));
    if !plan.control.checkpointEnabled {
      return if round in plan.pauses then Some(PauseUnsupported(round)) else None, writes - 1;
    }
    p.Save(files, round, plan.elapsed(round), writes - 1);
    if writes <= 2 { return Some(Crashed), 0; }
    return if round in plan.pauses then Some(Paused(round)) else None, writes - 3;
  }

  /** One round and its writes. */
  method RunAndWrite(ghost run: Runner, p: Process, files: Workspace, plan: Plan, round: nat, writes: nat)
    returns (ending: Option<Ending>, left: nat)
    requires p.Valid() && LogOf(p.cfg) in files.csv && round == |p.history| + 1 && Drives(run, p.w, p.cfg)
    modifies p, p.server, p.accountant, files
    ensures p.Valid() && |p.history| == round && LogOf(p.cfg) in files.csv
    ensures var step := run.step(old(p.Now()), round);
      var spec := WriteRound(run, plan, old(files.Contents()), step.0, step.1, round, writes);
      p.Now() == step.0 && files.Contents() == spec.disk && ending == spec.ending && left == spec.writes
  {
    hide WriteRound, AtBoundary, Process.Wired;
    DrivesItsOwn(run, p.w, p.cfg);
    var row := p.RunStep(run, round);
    hide Drives;
    ending, left := WriteRoundFiles(run, p, files, plan, row, round, writes);
  }

  /** The round loop: server, accountant, history, CSV and checkpoint move on together. */
  method RunRounds(ghost run: Runner, p: Process, files: Workspace, plan: Plan, writes: nat) returns (ending: Ending)
    requires p.Valid() && LogOf(p.cfg) in files.csv && |p.history| <= p.cfg.rounds && Drives(run, p.w, p.cfg)
    modifies p, p.server, p.accountant, files
    ensures (files.Contents(), ending)
         == Loop(run, plan, old(files.Contents()), old(p.Now()), old(|p.history|) + 1, writes)
  {
    hide Process.Valid, WriteRound, Drives;
    DrivesItsOwn(run, p.w, p.cfg);
    ghost var goal := Loop(run, plan, files.Contents(), p.Now(), |p.history| + 1, writes);
    var round, left := |p.history| + 1, writes;
    while round <= p.cfg.rounds
      invariant p.Valid() && LogOf(p.cfg) in files.csv && round == |p.history| + 1 <= p.cfg.rounds + 1
      invariant goal == Loop(run, plan, files.Contents(), p.Now(), round, left)
    {
      var stopped;
      stopped, left := RunAndWrite(run, p, files, plan, round, left);
      if stopped.Some? { return stopped.value; }
      round := round + 1;
    }
    if p.history == [] {
      return Rejected("experiment completed without any round history");
    }
    return Completed(p.Now());
  }

  method ResumeProcess(ghost run: Runner, p: Process, files: Workspace, plan: Plan, ghost spec: Outcome<Restored>)
    returns (ending: Ending)
    requires p.Valid() && Drives(run, p.w, p.cfg)
    requires spec == Restore(p.w, p.cfg, p.Now(), files.Contents())
    requires spec.Ok? ==> AtBoundary(p.w, p.cfg, spec.value.runtime, spec.value.roundsCompleted)
    modifies p, p.server, p.accountant, files
    ensures (files.Contents(), ending) == Resumed(run, plan, old(files.Contents()), spec)
  {
    var restored := p.RestoreFrom(files);
    ending := ContinueRestored(run, p, files, plan, restored, spec);
  }

  /** After a restore: check the CSV, append to it from the next round on. */
  method ContinueRestored(ghost run: Runner, p: Process, files: Workspace, plan: Plan, restored: Outcome<(nat, real)>,
                          ghost spec: Outcome<Restored>) returns (ending: Ending)
    requires Drives(run, p.w, p.cfg) && (restored.Ok? <==> spec.Ok?)
    requires restored.Ok? ==>
      p.Valid() && p.Now() == spec.value.runtime && restored.value.0 == spec.value.roundsCompleted
    requires restored.Ok? ==> |p.history| == restored.value.0 <= p.cfg.rounds
    requires restored.Error? ==> restored.message == spec.message
    modifies p, p.server, p.accountant, files
    ensures (files.Contents(), ending) == Resumed(run, plan, old(files.Contents()), spec)
  {
    hide AtBoundary, Loop, WriteRound, Restore;
    if restored.Error? { return Rejected(restored.message); }
    if !CsvMatches(files.csv, LogOf(p.cfg), restored.value.0) {
      return Rejected("round CSV does not match runtime checkpoint");
    }
    files.OpenLog(LogOf(p.cfg), true);
    ending := RunRounds(run, p, files, plan, plan.writes);
  }

  method StartAfresh(ghost run: Runner, p: Process, files: Workspace, plan: Plan) returns (ending: Ending)
    requires p.Valid() && p.history == [] && Drives(run, p.w, p.cfg) && p.Now() == run.start(plan.privacySeed)
    modifies p, p.server, p.accountant, files
    ensures (files.Contents(), ending) == StartedAfresh(run, plan, old(files.Contents()))
  {
    hide AtBoundary, Loop, WriteRound, Restore, Process.Wired, Drives;
    assert run.cfg == p.cfg by { DrivesItsOwn(run, p.w, p.cfg); }
    if plan.control.checkpointEnabled && files.checkpoint.Some? {
      return Rejected("fresh execution found an existing runtime checkpoint");
    }
    if Rows(files.csv, LogOf(p.cfg)) != [] {
      return Rejected("fresh execution found existing round history");
    }
    if plan.writes == 0 { return Crashed; }
    files.OpenLog(LogOf(p.cfg), false);
    ending := RunRounds(run, p, files, plan, plan.writes - 1);
  }

  lemma DrivesItsOwn(run: Runner, w: World, cfg: Experiment)
    requires Drives(run, w, cfg)
    ensures run.cfg == cfg
  {}

  /** run_resumable_experiment in a directory that only such processes have written: the files and the ending are
      those of the reference session. */
  method RunResumableExperiment(w: World, cfg: Experiment, plan: Plan, files: Workspace, ghost story: Story)
    returns (ending: Ending)
    requires Ready(w, cfg) && ValidControl(plan.control) && Tells(w, files.Contents(), story)
    modifies files
    ensures (files.Contents(), ending) == Session(w, RunnerOf(w, cfg), plan, old(files.Contents()))
  {
    RunnerDrives(w, cfg);
    var p := Start(w, cfg, plan.privacySeed);
    if plan.control.resume {
      RestoredAtBoundary(w, cfg, plan.privacySeed, files.Contents(), story);
      ending := ResumeProcess(RunnerOf(w, cfg), p, files, plan, Restore(w, cfg, p.Now(), files.Contents()));
    } else {
      ending := StartAfresh(RunnerOf(w, cfg), p, files, plan);
    }
  }

  lemma RestoredAtBoundary(w: World, cfg: Experiment, seed: int, disk: Disk, story: Story)
    requires Ready(w, cfg) && Tells(w, disk, story)
    ensures var spec := Restore(w, cfg, Initial(w, cfg, seed), disk);
      spec.Ok? ==> AtBoundary(w, cfg, spec.value.runtime, spec.value.roundsCompleted)
  {
    RunnerLawful(w, cfg);
    RestoreTold(w, RunnerOf(w, cfg), seed, disk, story);
    if SealedFor(story, cfg) {
      var s := story.save.value;
      if s.elapsed >= 0.0 { assert AtBoundary(w, s.run.cfg, Reach(s.run, s.seed, s.rounds), s.rounds); }
    }
  }
}
