/** The resumable federated experiment: the program of one process, and the run theorems for it. */
module ResumableExperiment {
  import opened FederatedServer
  import opened DpAccountant
  import opened FederatedRun
  import opened RuntimeCheckpoint
  import opened ResumableRuntime

  /** The federated round as a runner. */
  ghost function RunnerOf(w: World, cfg: Experiment): Runner
    requires Ready(w, cfg)
  {
    Runner(cfg, seed => Initial(w, cfg, seed),
           (rt, n) => if n > 0 && AtBoundary(w, cfg, rt, n - 1)
                      then (Round(w, cfg, rt, n), RowOf(w, cfg, Communicate(w, cfg, rt, n), n))
                      else (rt, HistoryRow(0, 0, 0.0, 0.0, NaN, [], [], 0.0)))
  }

  /** The runner steps as the federated round does. */
  ghost predicate Drives(run: Runner, w: World, cfg: Experiment) {
    && Ready(w, cfg) && run.cfg == cfg
    && forall rt, n: nat {:trigger Round(w, cfg, rt, n)} :: n > 0 && AtBoundary(w, cfg, rt, n - 1) ==>
         run.step(rt, n) == (Round(w, cfg, rt, n), RowOf(w, cfg, Communicate(w, cfg, rt, n), n))
  }

  lemma RunnerDrives(w: World, cfg: Experiment)
    requires Ready(w, cfg)
    ensures Drives(RunnerOf(w, cfg), w, cfg)
  {}

  lemma {:induction false} ReachIsAfter(w: World, cfg: Experiment, seed: int, n: nat)
    requires Ready(w, cfg)
    ensures Reach(RunnerOf(w, cfg), seed, n) == After(w, cfg, seed, n)
  {
    if n > 0 { ReachIsAfter(w, cfg, seed, n - 1); }
  }

  lemma StepAppends(w: World, cfg: Experiment, rt: Runtime, n: nat)
    requires Ready(w, cfg) && n > 0 && AtBoundary(w, cfg, rt, n - 1)
    ensures var step := RunnerOf(w, cfg).step(rt, n);
            AtBoundary(w, cfg, step.0, n) && step.0.history == rt.history + [step.1]
  {}

  lemma LawfulAt(w: World, cfg: Experiment, run: Runner, seed: int, n: nat)
    requires Ready(w, cfg) && run == RunnerOf(w, cfg)
    ensures AtBoundary(w, cfg, Reach(run, seed, n), n)
    ensures n > 0 ==> var before := Reach(run, seed, n - 1);
                      Reach(run, seed, n).history == before.history + [run.step(before, n).1]
  {
    hide RunnerOf, Round, Communicate, RowOf;
    ReachIsAfter(w, cfg, seed, n);
    if n > 0 {
      ReachIsAfter(w, cfg, seed, n - 1);
      StepAppends(w, cfg, Reach(run, seed, n - 1), n);
    }
  }

  lemma RunnerLawful(w: World, cfg: Experiment)
    requires Ready(w, cfg)
    ensures Lawful(w, RunnerOf(w, cfg))
  {
    var run := RunnerOf(w, cfg);
    forall seed, n: nat
      ensures AtBoundary(w, cfg, Reach(run, seed, n), n)
      ensures n > 0 ==> var before := Reach(run, seed, n - 1);
                        Reach(run, seed, n).history == before.history + [run.step(before, n).1]
    {
      LawfulAt(w, cfg, run, seed, n);
    }
  }

  /** Under DP the epsilon reported in a history never falls from one round to a later one. */
  lemma EpsilonNeverFalls(w: World, cfg: Experiment, seed: int, i: nat, j: nat, n: nat)
    requires Ready(w, cfg) && cfg.server.dpEnabled && i <= j < n
    ensures var h := After(w, cfg, seed, n).history;
            AtMost(h[i].epsilon, h[j].epsilon)
  {
    RowEpsilon(w, cfg, seed, i, n);
    RowEpsilon(w, cfg, seed, j, n);
    EpsilonAfterMono(w, cfg, i + 1, j + 1);
  }

  lemma RowEpsilon(w: World, cfg: Experiment, seed: int, i: nat, n: nat)
    requires Ready(w, cfg) && cfg.server.dpEnabled && i < n
    ensures After(w, cfg, seed, n).history[i].epsilon == EpsilonAfter(w, cfg, i + 1)
  {
    var run := RunnerOf(w, cfg);
    RunnerLawful(w, cfg);
    HistoryPrefix(w, run, seed, i + 1, n);
    ReachIsAfter(w, cfg, seed, i + 1);
    ReachIsAfter(w, cfg, seed, n);
    LastRowEpsilon(w, cfg, seed, i + 1);
    assert After(w, cfg, seed, i + 1).history[i] == After(w, cfg, seed, n).history[i];
  }

  // ----- whole histories of a directory -----

  /** A launch of an experiment: its configuration and how the process goes. */
  datatype Attempt = Attempt(cfg: Experiment, plan: Plan)

  ghost predicate ValidAttempts(w: World, attempts: seq<Attempt>) {
    forall i :: 0 <= i < |attempts| ==>
      Ready(w, attempts[i].cfg) && attempts[i].cfg.rounds > 0 && ValidControl(attempts[i].plan.control)
  }

  ghost function Launches(w: World, attempts: seq<Attempt>): (launches: seq<Launch>)
    requires ValidAttempts(w, attempts)
    ensures |launches| == |attempts|
  {
    seq(|attempts|, i requires 0 <= i < |attempts| => Launch(RunnerOf(w, attempts[i].cfg), attempts[i].plan))
  }

  lemma LaunchesAreLaunchable(w: World, attempts: seq<Attempt>)
    requires ValidAttempts(w, attempts)
    ensures Launchable(w, Launches(w, attempts))
  {
    forall i | 0 <= i < |attempts| ensures Lawful(w, Launches(w, attempts)[i].run) {
      RunnerLawful(w, attempts[i].cfg);
    }
  }

  /** What is known of the final runtime of an uninterrupted run. */
  ghost predicate Uninterrupted(w: World, cfg: Experiment, seed: int, final: Runtime)
    requires Ready(w, cfg)
  {
    && final == After(w, cfg, seed, cfg.rounds)
    && (!cfg.server.dpEnabled ==> forall other :: final == After(w, cfg, other, cfg.rounds))
    && (cfg.server.algorithm == Scaffold ==> Conserved(cfg.server, final.server))
  }

  lemma ReachIsUninterrupted(w: World, cfg: Experiment, seed: int)
    requires Ready(w, cfg)
    ensures Uninterrupted(w, cfg, seed, Reach(RunnerOf(w, cfg), seed, cfg.rounds))
  {
    ReachIsAfter(w, cfg, seed, cfg.rounds);
    if !cfg.server.dpEnabled {
      forall other ensures After(w, cfg, seed, cfg.rounds) == After(w, cfg, other, cfg.rounds) {
        SeedIrrelevantWithoutDp(w, cfg, seed, other, cfg.rounds);
      }
    }
    if cfg.server.algorithm == Scaffold {
      ScaffoldMeanAtEveryBoundary(w, cfg, seed, cfg.rounds);
    }
  }

  /** The main theorem. Any number of processes are launched with one control directory, each with any configuration,
      started afresh or resumed, paused at any rounds, killed between any two file writes. A process that completes ends
      with exactly the runtime of the uninterrupted run of its configuration, begun by one of the fresh starts, its log
      holds exactly the rows of that run, and if it saves, so does the checkpoint. Without DP there is only one such
      run. For SCAFFOLD its control variates satisfy the conservation law. */
  lemma CompletedExperiment(w: World, disk: Disk, attempts: seq<Attempt>, n: nat) returns (origin: nat)
    requires ValidAttempts(w, attempts) && n < |attempts| && Tells(w, disk, BLANK)
    ensures Launchable(w, Launches(w, attempts))
    ensures var ending := EndingOf(w, disk, Launches(w, attempts), n);
            var found := DiskAfter(w, disk, Launches(w, attempts), n + 1);
            ending.Completed? ==>
              && origin <= n && !attempts[origin].plan.control.resume && attempts[origin].cfg == attempts[n].cfg
              && Uninterrupted(w, attempts[n].cfg, attempts[origin].plan.privacySeed, ending.final)
              && LogOf(attempts[n].cfg) in found.csv
              && found.csv[LogOf(attempts[n].cfg)] == RowsOf(attempts[n].cfg, ending.final)
              && FilesAt(found, RunnerOf(w, attempts[n].cfg), attempts[origin].plan.privacySeed,
                         attempts[n].plan.control, attempts[n].cfg.rounds)
  {
    hide Uninterrupted, RunnerOf, Session;
    origin := n;
    var launches := Launches(w, attempts);
    LaunchesAreLaunchable(w, attempts);
    if EndingOf(w, disk, launches, n).Completed? {
      origin := CompletedIsUninterrupted(w, disk, launches, n);
      assert launches[n].run == RunnerOf(w, attempts[n].cfg);
      RunnerCfg(w, attempts[n].cfg);
      RunnerCfg(w, attempts[origin].cfg);
      ReachIsUninterrupted(w, attempts[n].cfg, attempts[origin].plan.privacySeed);
    }
  }

  /** A process that is killed has logged exactly the rounds of the uninterrupted run whose writes all happened, and the
      round whose row was written when it was killed; it can be resumed exactly when it saves, some round is kept and no
      write of the next one happened. */
  lemma KilledExperiment(w: World, disk: Disk, attempts: seq<Attempt>, n: nat) returns (origin: nat)
    requires ValidAttempts(w, attempts) && n < |attempts| && Tells(w, disk, BLANK)
    ensures Launchable(w, Launches(w, attempts))
    ensures var cfg, plan := attempts[n].cfg, attempts[n].plan;
            var left := DiskAfter(w, disk, Launches(w, attempts), n + 1);
            var done, torn := RoundsKept(plan, DiskAfter(w, disk, Launches(w, attempts), n)), TornWrites(plan);
            EndingOf(w, disk, Launches(w, attempts), n).Crashed? ==>
              && origin <= n && !attempts[origin].plan.control.resume && attempts[origin].cfg == cfg
              && Rows(left.csv, LogOf(cfg))
                 == RowsOf(cfg, After(w, cfg, attempts[origin].plan.privacySeed, if torn > 0 then done + 1 else done))
              && (Resumable(left, LogOf(cfg)) <==> plan.control.checkpointEnabled && torn == 0 && done > 0)
  {
    hide RunnerOf, Session, Resumable, RoundsKept, TornWrites, After;
    origin := n;
    var launches := Launches(w, attempts);
    LaunchesAreLaunchable(w, attempts);
    if EndingOf(w, disk, launches, n).Crashed? {
      origin := KilledLaunch(w, disk, launches, n);
      RunnerCfg(w, attempts[n].cfg);
      RunnerCfg(w, attempts[origin].cfg);
      var done, torn := RoundsKept(attempts[n].plan, DiskAfter(w, disk, launches, n)), TornWrites(attempts[n].plan);
      ReachIsAfter(w, attempts[n].cfg, attempts[origin].plan.privacySeed, if torn > 0 then done + 1 else done);
    }
  }

  lemma RunnerCfg(w: World, cfg: Experiment)
    requires Ready(w, cfg)
    ensures RunnerOf(w, cfg).cfg == cfg
  {}
}
