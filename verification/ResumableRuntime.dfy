/** Runs that pause, crash and resume: every way of cutting a run ends where the uninterrupted run ends.
    What a round computes is abstract here; the instance for the federated round is in ResumableExperiment. */
module ResumableRuntime {
  import opened SortedInts
  import opened FederatedRun
  import opened RuntimeCheckpoint

  datatype Control = Control(checkpointEnabled: bool, resume: bool)

  /** ExecutionControl.from_config: resuming needs checkpoints. */
  predicate ValidControl(control: Control) {
    control.resume ==> control.checkpointEnabled
  }

  /** One process: how it is started, the rounds at which a pause request is seen, the number of durable writes it
      makes before it is killed, and its clock reading at each round. */
  datatype Plan = Plan(control: Control, privacySeed: int, pauses: set<nat>, writes: nat, elapsed: nat -> real)

  datatype Ending =
    | Rejected(reason: string)
    | Crashed
    | Paused(round: nat)
    | PauseUnsupported(round: nat)
    | Completed(final: Runtime)

  /** A configuration with its start-up state, by privacy seed, and its round function, which also gives the row
      that the round logs. */
  datatype Runner = Runner(cfg: Experiment, start: int -> Runtime, step: (Runtime, nat) -> (Runtime, HistoryRow))

  /** The uninterrupted run. */
  function Reach(run: Runner, seed: int, n: nat): Runtime {
    if n == 0 then run.start(seed) else run.step(Reach(run, seed, n - 1), n).0
  }

  /** Every state of the uninterrupted run is a round boundary, and a round appends the row it logs. */
  ghost predicate Lawful(w: World, run: Runner) {
    forall seed, n: nat {:trigger AtBoundary(w, run.cfg, Reach(run, seed, n), n)} ::
      && AtBoundary(w, run.cfg, Reach(run, seed, n), n)
      && (n > 0 ==> var before := Reach(run, seed, n - 1);
                    Reach(run, seed, n).history == before.history + [run.step(before, n).1])
  }

  /** History is append-only along a run. */
  lemma {:induction false} HistoryPrefix(w: World, run: Runner, seed: int, k: nat, n: nat)
    requires Lawful(w, run) && k <= n
    ensures |Reach(run, seed, k).history| == k && |Reach(run, seed, n).history| == n
    ensures Reach(run, seed, k).history == Reach(run, seed, n).history[..k]
  {
    assert AtBoundary(w, run.cfg, Reach(run, seed, n), n);
    if k < n {
      HistoryPrefix(w, run, seed, k, n - 1);
      var h, g := Reach(run, seed, n).history, Reach(run, seed, n - 1).history;
      assert h == g + [h[n - 1]];
      assert h[..k] == g[..k];
    } else {
      var h := Reach(run, seed, n).history;
      assert h[..n] == h;
    }
  }

  function RowsOf(cfg: Experiment, rt: Runtime): (rows: seq<CsvRow>)
    ensures |rows| == |rt.history|
  {
    seq(|rt.history|, i requires 0 <= i < |rt.history| => CsvRow(cfg.server.algorithm, rt.history[i]))
  }

  /** The log of the uninterrupted run after n rounds. */
  function RowsAfter(run: Runner, seed: int, n: nat): seq<CsvRow> {
    RowsOf(run.cfg, Reach(run, seed, n))
  }

  // ----- the reference semantics of one process -----

  /** The disk after a round's writes, how the process ended if it did, and the writes it has left. */
  datatype Written = Written(disk: Disk, ending: Option<Ending>, writes: nat)

  /** One round's durable writes: log the row, replace the checkpoint, replace the digest, look for a pause.
      A process killed between two writes leaves the disk as it was after the last one. */
  function WriteRound(run: Runner, plan: Plan, disk: Disk, next: Runtime, row: HistoryRow, round: nat, writes: nat)
    : Written
  {
    var log := LogOf(run.cfg);
    var logged := disk.(csv := disk.csv[log := Rows(disk.csv, log) + [CsvRow(run.cfg.server.algorithm, row)]]);
    var payload := MakePayload(run.cfg, next, round, plan.elapsed(round));
    var saved := logged.(checkpoint := Some(payload));
    var sealed := saved.(digest := Some(Hex(payload)));
    if writes == 0 then Written(disk, Some(Crashed), 0)
    else if !plan.control.checkpointEnabled then
      Written(logged, if round in plan.pauses then Some(PauseUnsupported(round)) else None, writes - 1)
    else if writes == 1 then Written(logged, Some(Crashed), 0)
    else if writes == 2 then Written(saved, Some(Crashed), 0)
    else Written(sealed, if round in plan.pauses then Some(Paused(round)) else None, writes - 3)
  }

  /** The round loop from a boundary on. */
  function Loop(run: Runner, plan: Plan, disk: Disk, rt: Runtime, round: nat, writes: nat): (Disk, Ending)
    decreases run.cfg.rounds + 1 - round
  {
    if round > run.cfg.rounds then
      (disk, if rt.history == [] then Rejected("experiment completed without any round history") else Completed(rt))
    else
      var (next, row) := run.step(rt, round);
      var written := WriteRound(run, plan, disk, next, row, round, writes);
      if written.ending.Some? then (written.disk, written.ending.value)
      else Loop(run, plan, written.disk, next, round + 1, written.writes)
  }

  /** A resumed process continues from a restored checkpoint whose log matches. */
  function Resumed(run: Runner, plan: Plan, disk: Disk, restored: Outcome<Restored>): (Disk, Ending) {
    var log := LogOf(run.cfg);
    if restored.Error? then (disk, Rejected(restored.message))
    else if !CsvMatches(disk.csv, log, restored.value.roundsCompleted) then
      (disk, Rejected("round CSV does not match runtime checkpoint"))
    else
      Loop(run, plan, disk.(csv := disk.csv[log := Rows(disk.csv, log)]), restored.value.runtime,
           restored.value.roundsCompleted + 1, plan.writes)
  }

  /** A fresh process needs a log of its own without rows, and a directory without a checkpoint if it is to write one;
      opening the log writes a header. */
  function StartedAfresh(run: Runner, plan: Plan, disk: Disk): (Disk, Ending) {
    var log := LogOf(run.cfg);
    if plan.control.checkpointEnabled && disk.checkpoint.Some? then
      (disk, Rejected("fresh execution found an existing runtime checkpoint"))
    else if Rows(disk.csv, log) != [] then
      (disk, Rejected("fresh execution found existing round history"))
    else if plan.writes == 0 then (disk, Crashed)
    else Loop(run, plan, disk.(csv := disk.csv[log := []]), run.start(plan.privacySeed), 1, plan.writes - 1)
  }

  /** One process from start to end. */
  ghost function Session(w: World, run: Runner, plan: Plan, disk: Disk): (Disk, Ending)
    requires ValidControl(plan.control)
  {
    if plan.control.resume then Resumed(run, plan, disk, Restore(w, run.cfg, run.start(plan.privacySeed), disk))
    else StartedAfresh(run, plan, disk)
  }

  // ----- what the files of a directory can say -----

  /** The rows of a log: those of the first rounds of a run. */
  datatype Progress = Progress(run: Runner, seed: int, rounds: nat)

  /** The checkpoint: a boundary of a run. It is sealed when the digest vouches for it; otherwise the process was
      killed before it replaced the digest. */
  datatype Save = Save(run: Runner, seed: int, rounds: nat, elapsed: real, sealed: bool)

  /** What a directory that only these processes have written says: which logs have rows, and whose checkpoint it is. */
  datatype Story = Story(logs: map<LogName, Progress>, save: Option<Save>)

  const BLANK := Story(map[], None)

  function Saved(run: Runner, seed: int, n: nat, elapsed: real): Payload {
    MakePayload(run.cfg, Reach(run, seed, n), n, elapsed)
  }

  ghost predicate LogTells(w: World, csv: Logs, log: LogName, p: Progress) {
    && Lawful(w, p.run) && LogOf(p.run.cfg) == log && 1 <= p.rounds <= p.run.cfg.rounds
    && Rows(csv, log) == RowsAfter(p.run, p.seed, p.rounds)
  }

  ghost predicate LogsTell(w: World, csv: Logs, logs: map<LogName, Progress>) {
    forall log :: if log in logs then LogTells(w, csv, log, logs[log]) else Rows(csv, log) == []
  }

  ghost predicate DigestOfRound(run: Runner, seed: int, n: nat, digest: DigestFile) {
    exists e :: digest == Hex(Saved(run, seed, n, e))
  }

  ghost predicate SaveTells(checkpoint: Option<Payload>, digest: Option<DigestFile>, save: Option<Save>) {
    match save
    case None => checkpoint.None? && digest.None?
    case Some(s) =>
      && s.rounds > 0 && checkpoint == Some(Saved(s.run, s.seed, s.rounds, s.elapsed))
      && if s.sealed then digest == Some(Hex(Saved(s.run, s.seed, s.rounds, s.elapsed)))
         else digest.Some? ==> DigestOfRound(s.run, s.seed, s.rounds - 1, digest.value)
  }

  /** The log of the checkpointed run is where the checkpoint is or, under a sealed one, perhaps a row ahead. */
  ghost predicate Aligned(story: Story) {
    story.save.Some? ==>
      var s := story.save.value;
      var log := LogOf(s.run.cfg);
      && log in story.logs && story.logs[log].run == s.run && story.logs[log].seed == s.seed
      && s.rounds <= story.logs[log].rounds <= if s.sealed then s.rounds + 1 else s.rounds
  }

  ghost predicate Tells(w: World, disk: Disk, story: Story) {
    LogsTell(w, disk.csv, story.logs) && SaveTells(disk.checkpoint, disk.digest, story.save) && Aligned(story)
  }

  lemma RowsGrow(w: World, run: Runner, seed: int, n: nat)
    requires Lawful(w, run) && n > 0
    ensures RowsAfter(run, seed, n)
         == RowsAfter(run, seed, n - 1) + [CsvRow(run.cfg.server.algorithm, run.step(Reach(run, seed, n - 1), n).1)]
  {
    assert AtBoundary(w, run.cfg, Reach(run, seed, n), n);
  }

  lemma RowsCount(w: World, run: Runner, seed: int, n: nat)
    requires Lawful(w, run)
    ensures |RowsAfter(run, seed, n)| == n
    ensures forall i :: 0 <= i < n ==>
      RowsAfter(run, seed, n)[i].row.round == i + 1 && RowsAfter(run, seed, n)[i].algorithm == run.cfg.server.algorithm
  {
    assert AtBoundary(w, run.cfg, Reach(run, seed, n), n);
  }

  // ----- the round loop -----

  /** A run has logged `rows` rounds. */
  function LoggedStory(base: Story, run: Runner, seed: int, rows: nat): Story {
    if rows == 0 then base else base.(logs := base.logs[LogOf(run.cfg) := Progress(run, seed, rows)])
  }

  /** A run of this control stands at the boundary after `done` rounds. */
  function BoundaryStory(base: Story, run: Runner, seed: int, control: Control, done: nat, elapsed: real): Story {
    var logged := LoggedStory(base, run, seed, done);
    if done == 0 || !control.checkpointEnabled then logged
    else logged.(save := Some(Save(run, seed, done, elapsed, true)))
  }

  /** The story after one round's writes, started from the boundary before it. */
  function RoundStory(base: Story, run: Runner, seed: int, plan: Plan, round: nat, writes: nat, elapsed: real): Story
    requires round > 0
  {
    var before := BoundaryStory(base, run, seed, plan.control, round - 1, elapsed);
    var logged := LoggedStory(before, run, seed, round);
    if writes == 0 then before
    else if writes == 1 || !plan.control.checkpointEnabled then logged
    else logged.(save := Some(Save(run, seed, round, plan.elapsed(round), writes > 2)))
  }

  /** The directory beside which a run takes place: its own log is empty and, if it saves, there is no checkpoint. */
  ghost predicate Vacant(base: Story, run: Runner, control: Control) {
    LogOf(run.cfg) !in base.logs && (control.checkpointEnabled ==> base.save.None?)
  }

  lemma RoundAligned(base: Story, run: Runner, seed: int, plan: Plan, round: nat, writes: nat, elapsed: real)
    requires Vacant(base, run, plan.control) && Aligned(base) && round > 0
    ensures Aligned(RoundStory(base, run, seed, plan, round, writes, elapsed))
  {}

  /** A round whose writes all happen leads to the next boundary. */
  lemma RoundReachesBoundary(base: Story, run: Runner, seed: int, plan: Plan, round: nat, writes: nat, elapsed: real)
    requires round > 0
    ensures writes > 2 || (writes > 0 && !plan.control.checkpointEnabled) ==>
      RoundStory(base, run, seed, plan, round, writes, elapsed)
      == BoundaryStory(base, run, seed, plan.control, round, plan.elapsed(round))
  {
    var log := LogOf(run.cfg);
    var last, next := Progress(run, seed, round - 1), Progress(run, seed, round);
    assert base.logs[log := last][log := next] == base.logs[log := next];
  }

  /** Logging one more row. */
  lemma LogGrows(w: World, csv: Logs, logs: map<LogName, Progress>, run: Runner, seed: int, round: nat)
    requires Lawful(w, run) && 1 <= round <= run.cfg.rounds && LogsTell(w, csv, logs)
    requires Rows(csv, LogOf(run.cfg)) == RowsAfter(run, seed, round - 1)
    ensures LogsTell(w, csv[LogOf(run.cfg) := RowsAfter(run, seed, round)],
                     logs[LogOf(run.cfg) := Progress(run, seed, round)])
  {
    hide RowsAfter, Lawful;
    var log := LogOf(run.cfg);
    forall other | other != log
      ensures Rows(csv[log := RowsAfter(run, seed, round)], other) == Rows(csv, other)
    {}
  }

  /** The disk at the top of the round loop. */
  ghost predicate LoopDisk(w: World, base: Story, run: Runner, seed: int, control: Control, disk: Disk, done: nat,
                           elapsed: real) {
    && Vacant(base, run, control) && Aligned(base)
    && Rows(disk.csv, LogOf(run.cfg)) == RowsAfter(run, seed, done)
    && Tells(w, disk, BoundaryStory(base, run, seed, control, done, elapsed))
  }

  lemma RoundTells(w: World, base: Story, run: Runner, seed: int, plan: Plan, disk: Disk, round: nat, writes: nat,
                   elapsed: real)
    requires Lawful(w, run) && 1 <= round <= run.cfg.rounds
    requires LoopDisk(w, base, run, seed, plan.control, disk, round - 1, elapsed)
    ensures var step := run.step(Reach(run, seed, round - 1), round);
            var r := WriteRound(run, plan, disk, step.0, step.1, round, writes);
            && Tells(w, r.disk, RoundStory(base, run, seed, plan, round, writes, elapsed))
            && (r.ending.None? ==>
                  writes > 0 && LoopDisk(w, base, run, seed, plan.control, r.disk, round, plan.elapsed(round)))
  {
    hide Lawful, LogTells, RowsOf;
    RowsGrow(w, run, seed, round);
    RoundAligned(base, run, seed, plan, round, writes, elapsed);
    RoundReachesBoundary(base, run, seed, plan, round, writes, elapsed);
    LogGrows(w, disk.csv, BoundaryStory(base, run, seed, plan.control, round - 1, elapsed).logs, run, seed, round);
    if writes == 2 && plan.control.checkpointEnabled && round > 1 {
      assert DigestOfRound(run, seed, round - 1, disk.digest.value);
    }
  }

  /** The durable writes of one round. */
  function Per(control: Control): (n: nat)
    ensures n > 0
  {
    if control.checkpointEnabled then 3 else 1
  }

  /** No pause is requested from round a up to but not including round b. */
  predicate NoPause(plan: Plan, a: nat, b: nat) {
    forall round :: a <= round < b ==> round !in plan.pauses
  }

  predicate FirstPause(plan: Plan, first: nat, round: nat) {
    first <= round && round in plan.pauses && NoPause(plan, first, round)
  }

  /** What a loop from round `first` with this many writes left has kept when it is killed: every round whose writes all
      happened, and as many writes of the next one as were left. */
  ghost predicate KilledAt(base: Story, run: Runner, seed: int, plan: Plan, first: nat, writes: nat, after: Story) {
    var round := first + writes / Per(plan.control);
    && 1 <= round <= run.cfg.rounds && NoPause(plan, first, round)
    && exists elapsed :: after == RoundStory(base, run, seed, plan, round, writes % Per(plan.control), elapsed)
  }

  /** What a process that got past its start-up checks reports and leaves behind, if its loop begins at round `first`
      with this many writes left. */
  ghost predicate Faithful(base: Story, run: Runner, seed: int, plan: Plan, first: nat, writes: nat, ending: Ending,
                           after: Story) {
    && Beside(base, run, seed, plan.control, after)
    && match ending
       case Rejected(_) => run.cfg.rounds == 0
       case Crashed => KilledAt(base, run, seed, plan, first, writes, after)
       case Paused(round) =>
         && plan.control.checkpointEnabled && round > 0 && FirstPause(plan, first, round)
         && after == BoundaryStory(base, run, seed, plan.control, round, plan.elapsed(round))
       case PauseUnsupported(round) =>
         && !plan.control.checkpointEnabled && round > 0 && FirstPause(plan, first, round)
         && after == BoundaryStory(base, run, seed, plan.control, round, plan.elapsed(round))
       case Completed(final) =>
         && NoPause(plan, first, run.cfg.rounds + 1) && final == Reach(run, seed, run.cfg.rounds)
         && StandsAt(base, run, seed, plan.control, run.cfg.rounds, after)
  }

  /** A loop that gets through a round goes on as the loop from the next round does. */
  lemma OneRoundLater(base: Story, run: Runner, seed: int, plan: Plan, first: nat, writes: nat, ending: Ending,
                      after: Story)
    requires first !in plan.pauses && writes >= Per(plan.control)
    requires Faithful(base, run, seed, plan, first + 1, writes - Per(plan.control), ending, after)
    ensures Faithful(base, run, seed, plan, first, writes, ending, after)
  {
    hide Beside, RoundStory, BoundaryStory, Reach, StandsAt;
    var per := Per(plan.control);
    assert writes / per == (writes - per) / per + 1 && writes % per == (writes - per) % per;
    assert forall round :: NoPause(plan, first + 1, round) ==> NoPause(plan, first, round);
  }

  /** A round that ends the process. */
  lemma LastRound(base: Story, run: Runner, seed: int, plan: Plan, disk: Disk, next: Runtime, row: HistoryRow,
                  round: nat, writes: nat, elapsed: real)
    requires Vacant(base, run, plan.control) && 1 <= round <= run.cfg.rounds
    ensures var r := WriteRound(run, plan, disk, next, row, round, writes);
            var after := RoundStory(base, run, seed, plan, round, writes, elapsed);
            && (r.ending.Some? ==> Faithful(base, run, seed, plan, round, writes, r.ending.value, after))
            && (r.ending.None? ==>
                  round !in plan.pauses && writes >= Per(plan.control) && r.writes == writes - Per(plan.control))
  {
    RoundBeside(base, run, seed, plan, round, writes, elapsed);
    RoundReachesBoundary(base, run, seed, plan, round, writes, elapsed);
    hide Beside, RoundStory, BoundaryStory, Reach, StandsAt;
    if writes < Per(plan.control) {
      assert writes / Per(plan.control) == 0 && writes % Per(plan.control) == writes;
    }
  }

  /** The directory holds exactly the first n rounds of the run. */
  ghost predicate StandsAt(base: Story, run: Runner, seed: int, control: Control, n: nat, after: Story) {
    exists elapsed :: after == BoundaryStory(base, run, seed, control, n, elapsed)
  }

  /** The run touches its own log and, if it saves, the checkpoint, and nothing else. */
  ghost predicate Beside(base: Story, run: Runner, seed: int, control: Control, after: Story) {
    var log := LogOf(run.cfg);
    && after.logs - {log} == base.logs
    && (log in after.logs ==> after.logs[log].run == run && after.logs[log].seed == seed)
    && (after.save == base.save
        || (&& control.checkpointEnabled && after.save.Some?
            && after.save.value.run == run && after.save.value.seed == seed))
  }

  lemma RoundBeside(base: Story, run: Runner, seed: int, plan: Plan, round: nat, writes: nat, elapsed: real)
    requires Vacant(base, run, plan.control) && round > 0
    ensures Beside(base, run, seed, plan.control, RoundStory(base, run, seed, plan, round, writes, elapsed))
    ensures Beside(base, run, seed, plan.control, BoundaryStory(base, run, seed, plan.control, round - 1, elapsed))
  {}

  lemma {:induction false} LoopFaithful(w: World, base: Story, run: Runner, seed: int, plan: Plan, disk: Disk,
                                        round: nat, writes: nat, elapsed: real) returns (after: Story)
    requires Lawful(w, run) && 1 <= round <= run.cfg.rounds + 1
    requires LoopDisk(w, base, run, seed, plan.control, disk, round - 1, elapsed)
    ensures var r := Loop(run, plan, disk, Reach(run, seed, round - 1), round, writes);
            Tells(w, r.0, after) && Faithful(base, run, seed, plan, round, writes, r.1, after)
    decreases run.cfg.rounds + 1 - round
  {
    hide Tells, Beside, BoundaryStory, RoundStory, Vacant;
    if round > run.cfg.rounds {
      RoundBeside(base, run, seed, plan, round, writes, elapsed);
      RowsCount(w, run, seed, round - 1);
      after := BoundaryStory(base, run, seed, plan.control, round - 1, elapsed);
      assert StandsAt(base, run, seed, plan.control, round - 1, after);
    } else {
      hide Faithful, WriteRound;
      RoundTells(w, base, run, seed, plan, disk, round, writes, elapsed);
      var step := run.step(Reach(run, seed, round - 1), round);
      LastRound(base, run, seed, plan, disk, step.0, step.1, round, writes, elapsed);
      var r := WriteRound(run, plan, disk, step.0, step.1, round, writes);
      if r.ending.Some? {
        after := RoundStory(base, run, seed, plan, round, writes, elapsed);
      } else {
        after := LoopFaithful(w, base, run, seed, plan, r.disk, round + 1, r.writes, plan.elapsed(round));
        OneRoundLater(base, run, seed, plan, round, writes,
                      Loop(run, plan, r.disk, step.0, round + 1, r.writes).1, after);
      }
    }
  }

  // ----- one process, and any number of them -----

  /** The story's checkpoint is sealed and is of this configuration. */
  ghost predicate SealedFor(story: Story, cfg: Experiment) {
    story.save.Some? && story.save.value.sealed && story.save.value.run.cfg == cfg
  }

  /** Restoring succeeds only on a sealed checkpoint of the same configuration, and then yields the saved boundary. */
  lemma RestoreTold(w: World, run: Runner, seed: int, disk: Disk, story: Story)
    requires Lawful(w, run) && Tells(w, disk, story)
    ensures var restored := Restore(w, run.cfg, run.start(seed), disk);
            && (restored.Ok? <==> SealedFor(story, run.cfg) && story.save.value.elapsed >= 0.0)
            && (restored.Ok? ==>
                  var s := story.save.value;
                  && restored.value == Restored(Reach(s.run, s.seed, s.rounds), s.rounds, s.elapsed)
                  && Lawful(w, s.run))
  {
    hide RestoredState, CheckedHeader, LogsTell;
    VerifiedTold(disk, story.save);
    if story.save.Some? && story.save.value.sealed {
      hide Restore, Saved;
      var s := story.save.value;
      assert LogTells(w, disk.csv, LogOf(s.run.cfg), story.logs[LogOf(s.run.cfg)]) by { LogIsTold(w, disk, story, s); }
      SealedRestores(w, run, seed, disk, s);
    }
  }

  lemma LogIsTold(w: World, disk: Disk, story: Story, s: Save)
    requires Tells(w, disk, story) && story.save == Some(s)
    ensures LogTells(w, disk.csv, LogOf(s.run.cfg), story.logs[LogOf(s.run.cfg)])
  {
    hide LogTells, SaveTells;
  }

  lemma SealedRestores(w: World, run: Runner, seed: int, disk: Disk, s: Save)
    requires Lawful(w, run) && Lawful(w, s.run) && s.rounds <= s.run.cfg.rounds
    requires disk.checkpoint == Some(Saved(s.run, s.seed, s.rounds, s.elapsed))
    requires disk.digest == Some(Hex(Saved(s.run, s.seed, s.rounds, s.elapsed)))
    ensures var restored := Restore(w, run.cfg, run.start(seed), disk);
            && (restored.Ok? <==> s.run.cfg == run.cfg && s.elapsed >= 0.0)
            && (restored.Ok? ==> restored.value == Restored(Reach(s.run, s.seed, s.rounds), s.rounds, s.elapsed))
  {
    hide Restore, MakePayload;
    assert AtBoundary(w, run.cfg, Reach(run, seed, 0), 0);
    var rt := Reach(s.run, s.seed, s.rounds);
    assert AtBoundary(w, s.run.cfg, rt, s.rounds);
    SaveRestore(w, s.run.cfg, run.cfg, run.start(seed), rt, s.rounds, s.elapsed, disk);
  }

  /** The digest vouches for the checkpoint exactly when the story's checkpoint is sealed. */
  lemma VerifiedTold(disk: Disk, save: Option<Save>)
    requires SaveTells(disk.checkpoint, disk.digest, save)
    ensures VerifiedPayload(disk).Ok? <==> save.Some? && save.value.sealed
    ensures VerifiedPayload(disk).Ok? ==>
      var s := save.value; VerifiedPayload(disk).value == Saved(s.run, s.seed, s.rounds, s.elapsed)
  {}

  /** The check of the log separates a log that stands at the checkpoint from one that is a row ahead. */
  lemma CsvTold(w: World, disk: Disk, story: Story)
    requires Tells(w, disk, story) && story.save.Some?
    ensures var s := story.save.value;
            var log := LogOf(s.run.cfg);
            CsvMatches(disk.csv, log, s.rounds) <==> story.logs[log].rounds == s.rounds
  {
    var s := story.save.value;
    var log := LogOf(s.run.cfg);
    assert LogTells(w, disk.csv, log, story.logs[log]);
    RowsCount(w, s.run, s.seed, story.logs[log].rounds);
  }

  /** The processes that get past the start-up checks. Resuming needs a sealed checkpoint of the same configuration,
      saved by a clock that did not run backwards, with a log that stands where it stands. A fresh start needs a log
      without rows and, if it is to save, a directory without a checkpoint. */
  ghost predicate Admitted(run: Runner, plan: Plan, story: Story) {
    var log := LogOf(run.cfg);
    if plan.control.resume then
      && SealedFor(story, run.cfg) && story.save.value.elapsed >= 0.0
      && log in story.logs && story.logs[log].rounds == story.save.value.rounds
    else log !in story.logs && (plan.control.checkpointEnabled ==> story.save.None?)
  }

  /** What the directory says of everything but the run that this process takes up. */
  function Beneath(story: Story, run: Runner, plan: Plan): Story {
    if plan.control.resume then Story(story.logs - {LogOf(run.cfg)}, None) else story
  }

  /** The round at which the loop of an admitted process begins, and the writes it has for its rounds: a fresh one
      spends its first write on the header of its log. */
  function FirstRound(story: Story, plan: Plan): nat {
    if plan.control.resume && story.save.Some? then story.save.value.rounds + 1 else 1
  }

  function LoopWrites(plan: Plan): nat {
    if plan.control.resume || plan.writes == 0 then plan.writes else plan.writes - 1
  }

  /** Crash consistency of one process. Whatever the directory says and whenever the process is killed, it is either
      rejected, which happens exactly when it is not admitted and changes nothing, or continues the run the directory
      holds from exactly its last completed round, and leaves a directory that again says something: all rounds, those
      up to the pause, or, when it is killed, every round whose writes all happened and the writes of the next one. */
  lemma SessionFaithful(w: World, run: Runner, plan: Plan, disk: Disk, before: Story)
    returns (after: Story, seed: int)
    requires Lawful(w, run) && run.cfg.rounds > 0 && ValidControl(plan.control) && Tells(w, disk, before)
    requires before.save.Some? && before.save.value.run.cfg == run.cfg ==> before.save.value.run == run
    ensures var r := Session(w, run, plan, disk);
            && Tells(w, r.0, after)
            && (r.1.Rejected? <==> !Admitted(run, plan, before))
            && (r.1.Rejected? ==> r.0 == disk && after == before)
            && (!r.1.Rejected? ==> Faithful(Beneath(before, run, plan), run, seed, plan, FirstRound(before, plan),
                                            LoopWrites(plan), r.1, after))
    ensures seed == if plan.control.resume && before.save.Some? then before.save.value.seed else plan.privacySeed
  {
    hide Faithful;
    seed := plan.privacySeed;
    if plan.control.resume {
      if before.save.Some? { seed := before.save.value.seed; }
      after := ResumedFaithful(w, run, plan, disk, before);
    } else {
      after := AfreshFaithful(w, run, plan, disk, before);
    }
  }

  lemma ResumedFaithful(w: World, run: Runner, plan: Plan, disk: Disk, before: Story) returns (after: Story)
    requires Lawful(w, run) && run.cfg.rounds > 0 && plan.control == Control(true, true) && Tells(w, disk, before)
    requires before.save.Some? && before.save.value.run.cfg == run.cfg ==> before.save.value.run == run
    ensures var r := Resumed(run, plan, disk, Restore(w, run.cfg, run.start(plan.privacySeed), disk));
            && Tells(w, r.0, after)
            && (r.1.Rejected? <==> !Admitted(run, plan, before))
            && (r.1.Rejected? ==> r.0 == disk && after == before)
            && (!r.1.Rejected? ==>
                  before.save.Some?
                  && Faithful(Beneath(before, run, plan), run, before.save.value.seed, plan, FirstRound(before, plan),
                              LoopWrites(plan), r.1, after))
  {
    hide Restore, Loop, Faithful, Lawful, LogsTell, SaveTells;
    after := before;
    RestoreTold(w, run, plan.privacySeed, disk, before);
    if SealedFor(before, run.cfg) && before.save.value.elapsed >= 0.0 {
      CsvTold(w, disk, before);
      if Admitted(run, plan, before) {
        after := ContinuedFaithful(w, run, plan, disk, before);
      }
    }
  }

  lemma ContinuedFaithful(w: World, run: Runner, plan: Plan, disk: Disk, before: Story) returns (after: Story)
    requires Lawful(w, run) && run.cfg.rounds > 0 && plan.control == Control(true, true) && Tells(w, disk, before)
    requires Admitted(run, plan, before) && before.save.value.run == run
    ensures var s, log := before.save.value, LogOf(run.cfg);
            var r := Loop(run, plan, disk.(csv := disk.csv[log := Rows(disk.csv, log)]), Reach(run, s.seed, s.rounds),
                          s.rounds + 1, plan.writes);
            && Tells(w, r.0, after) && !r.1.Rejected?
            && Faithful(Beneath(before, run, plan), run, s.seed, plan, s.rounds + 1, plan.writes, r.1, after)
  {
    hide Loop, Lawful, Reach;
    var s, log := before.save.value, LogOf(run.cfg);
    assert LogTells(w, disk.csv, log, before.logs[log]);
    RowsCount(w, run, s.seed, s.rounds);
    assert disk.csv[log := Rows(disk.csv, log)] == disk.csv;
    BeneathIsBoundary(before, run, plan);
    after := LoopFaithful(w, Beneath(before, run, plan), run, s.seed, plan, disk, s.rounds + 1, plan.writes, s.elapsed);
  }

  /** A directory that admits a resumed process stands at a boundary of its run. */
  lemma BeneathIsBoundary(before: Story, run: Runner, plan: Plan)
    requires plan.control == Control(true, true) && Admitted(run, plan, before) && Aligned(before)
    requires before.save.value.run == run && before.save.value.rounds > 0
    ensures var s := before.save.value;
            BoundaryStory(Beneath(before, run, plan), run, s.seed, plan.control, s.rounds, s.elapsed) == before
  {
    var s, log := before.save.value, LogOf(run.cfg);
    assert (before.logs - {log})[log := Progress(run, s.seed, s.rounds)] == before.logs;
  }

  lemma AfreshFaithful(w: World, run: Runner, plan: Plan, disk: Disk, before: Story) returns (after: Story)
    requires Lawful(w, run) && run.cfg.rounds > 0 && !plan.control.resume && Tells(w, disk, before)
    ensures var r := StartedAfresh(run, plan, disk);
            && Tells(w, r.0, after)
            && (r.1.Rejected? <==> !Admitted(run, plan, before))
            && (r.1.Rejected? ==> r.0 == disk && after == before)
            && (!r.1.Rejected? ==>
                  Faithful(before, run, plan.privacySeed, plan, 1, LoopWrites(plan), r.1, after))
  {
    hide Loop;
    var log := LogOf(run.cfg);
    after := before;
    assert if log in before.logs then LogTells(w, disk.csv, log, before.logs[log]) else Rows(disk.csv, log) == [];
    if log in before.logs {
      RowsCount(w, before.logs[log].run, before.logs[log].seed, before.logs[log].rounds);
    } else if Admitted(run, plan, before) {
      assert after.logs - {log} == before.logs;
      if plan.writes > 0 {
        OpenedTells(w, disk, before, log);
        RowsCount(w, run, plan.privacySeed, 0);
        after := LoopFaithful(w, before, run, plan.privacySeed, plan, disk.(csv := disk.csv[log := []]), 1,
                              plan.writes - 1, 0.0);
      } else {
        KilledAtOnce(before, run, plan);
      }
    }
  }

  lemma KilledAtOnce(base: Story, run: Runner, plan: Plan)
    requires run.cfg.rounds > 0 && plan.writes == 0 && LogOf(run.cfg) !in base.logs
    ensures Faithful(base, run, plan.privacySeed, plan, 1, LoopWrites(plan), Crashed, base)
  {
    assert base.logs - {LogOf(run.cfg)} == base.logs;
    var writes, per := LoopWrites(plan), Per(plan.control);
    assert writes / per == 0 && writes % per == 0;
    assert base == RoundStory(base, run, plan.privacySeed, plan, 1 + writes / per, writes % per, 0.0);
  }

  /** Writing a header to a log without rows. */
  lemma OpenedTells(w: World, disk: Disk, story: Story, log: LogName)
    requires Tells(w, disk, story) && log !in story.logs
    ensures Tells(w, disk.(csv := disk.csv[log := []]), story)
  {
    hide Lawful, RowsAfter;
    assert forall other :: Rows(disk.csv[log := []], other) == if other == log then [] else Rows(disk.csv, other);
    assert Rows(disk.csv, log) == [];
  }

  datatype Launch = Launch(run: Runner, plan: Plan)

  /** Processes that share a directory; a configuration determines its runner. */
  ghost predicate Launchable(w: World, launches: seq<Launch>) {
    && (forall i :: 0 <= i < |launches| ==>
          Lawful(w, launches[i].run) && launches[i].run.cfg.rounds > 0 && ValidControl(launches[i].plan.control))
    && forall i, j :: 0 <= i < |launches| && 0 <= j < |launches| && launches[i].run.cfg == launches[j].run.cfg ==>
         launches[i].run == launches[j].run
  }

  /** The directory after the first n processes. */
  ghost function DiskAfter(w: World, disk: Disk, launches: seq<Launch>, n: nat): Disk
    requires n <= |launches| && Launchable(w, launches)
  {
    if n == 0 then disk
    else Session(w, launches[n - 1].run, launches[n - 1].plan, DiskAfter(w, disk, launches, n - 1)).0
  }

  /** How process n ends. */
  ghost function EndingOf(w: World, disk: Disk, launches: seq<Launch>, n: nat): Ending
    requires n < |launches| && Launchable(w, launches)
  {
    Session(w, launches[n].run, launches[n].plan, DiskAfter(w, disk, launches, n)).1
  }

  /** Process j, among the first n, is a fresh start of this run with this privacy seed. */
  ghost predicate StartedBy(launches: seq<Launch>, n: nat, run: Runner, seed: int, j: nat) {
    j < n <= |launches| && !launches[j].plan.control.resume
    && launches[j].run == run && launches[j].plan.privacySeed == seed
  }

  ghost predicate Started(launches: seq<Launch>, n: nat, run: Runner, seed: int) {
    exists j :: StartedBy(launches, n, run, seed, j)
  }

  /** Every log of the story is of a run that one of the first n processes started. */
  ghost predicate Originated(launches: seq<Launch>, n: nat, story: Story) {
    forall log :: log in story.logs ==> Started(launches, n, story.logs[log].run, story.logs[log].seed)
  }

  lemma SaveIsKnown(w: World, launches: seq<Launch>, n: nat, story: Story)
    requires n < |launches| && Launchable(w, launches) && Originated(launches, n, story) && Aligned(story)
    ensures story.save.Some? ==> Started(launches, n, story.save.value.run, story.save.value.seed)
    ensures story.save.Some? && story.save.value.run.cfg == launches[n].run.cfg ==>
      story.save.value.run == launches[n].run
  {
    if story.save.Some? {
      var s := story.save.value;
      var log := LogOf(s.run.cfg);
      var j: nat :| StartedBy(launches, n, story.logs[log].run, story.logs[log].seed, j);
      assert launches[j].run == s.run;
    }
  }

  /** Process n seen from the directory it finds. */
  lemma LaunchFaithful(w: World, disk: Disk, launches: seq<Launch>, n: nat, before: Story)
    returns (after: Story, seed: int)
    requires n < |launches| && Launchable(w, launches)
    requires Tells(w, DiskAfter(w, disk, launches, n), before) && Originated(launches, n, before)
    ensures Tells(w, DiskAfter(w, disk, launches, n + 1), after) && Originated(launches, n + 1, after)
    ensures var x, ending := launches[n], EndingOf(w, disk, launches, n);
            && (ending.Rejected? <==> !Admitted(x.run, x.plan, before))
            && (ending.Rejected? ==>
                  after == before && DiskAfter(w, disk, launches, n + 1) == DiskAfter(w, disk, launches, n))
            && (!ending.Rejected? ==>
                  && Faithful(Beneath(before, x.run, x.plan), x.run, seed, x.plan, FirstRound(before, x.plan),
                              LoopWrites(x.plan), ending, after)
                  && Started(launches, n + 1, x.run, seed)
                  && seed == if x.plan.control.resume && before.save.Some? then before.save.value.seed
                             else x.plan.privacySeed)
  {
    hide Session, Tells, Faithful, Admitted;
    var x := launches[n];
    AlignedByStory(w, DiskAfter(w, disk, launches, n), before);
    SaveIsKnown(w, launches, n, before);
    after, seed := SessionFaithful(w, x.run, x.plan, DiskAfter(w, disk, launches, n), before);
    StartedLater(launches, n);
    if !EndingOf(w, disk, launches, n).Rejected? {
      AdmittedIsSaved(x.run, x.plan, before);
      if !x.plan.control.resume { assert StartedBy(launches, n + 1, x.run, seed, n); }
      assert Started(launches, n + 1, x.run, seed);
      FaithfulIsBeside(Beneath(before, x.run, x.plan), x.run, seed, x.plan, FirstRound(before, x.plan),
                       LoopWrites(x.plan), EndingOf(w, disk, launches, n), after);
      KnownBeside(launches, n, before, after, x, seed);
    }
  }

  lemma AlignedByStory(w: World, disk: Disk, story: Story)
    requires Tells(w, disk, story)
    ensures Aligned(story)
  {}

  lemma AdmittedIsSaved(run: Runner, plan: Plan, story: Story)
    requires Admitted(run, plan, story)
    ensures plan.control.resume ==> story.save.Some? && story.save.value.run.cfg == run.cfg
  {}

  lemma StartedLater(launches: seq<Launch>, n: nat)
    requires n < |launches|
    ensures forall run, seed :: Started(launches, n, run, seed) ==> Started(launches, n + 1, run, seed)
  {
    forall run, seed | Started(launches, n, run, seed) ensures Started(launches, n + 1, run, seed) {
      var j: nat :| StartedBy(launches, n, run, seed, j);
      assert StartedBy(launches, n + 1, run, seed, j);
    }
  }

  lemma FaithfulIsBeside(base: Story, run: Runner, seed: int, plan: Plan, first: nat, writes: nat, ending: Ending,
                         after: Story)
    requires Faithful(base, run, seed, plan, first, writes, ending, after)
    ensures Beside(base, run, seed, plan.control, after)
  {}

  lemma KnownBeside(launches: seq<Launch>, n: nat, before: Story, after: Story, x: Launch, seed: int)
    requires n < |launches| && Originated(launches, n, before) && Started(launches, n + 1, x.run, seed)
    requires Beside(Beneath(before, x.run, x.plan), x.run, seed, x.plan.control, after)
    ensures Originated(launches, n + 1, after)
  {
    StartedLater(launches, n);
    var log := LogOf(x.run.cfg);
    forall other | other in after.logs ensures Started(launches, n + 1, after.logs[other].run, after.logs[other].seed) {
      if other != log {
        assert other in after.logs - {log};
        assert other in before.logs && before.logs[other] == after.logs[other];
      }
    }
  }

  /** After any processes the directory says something, and every run it speaks of was started in it. */
  lemma {:induction false} DiskTells(w: World, disk: Disk, launches: seq<Launch>, n: nat) returns (story: Story)
    requires n <= |launches| && Launchable(w, launches) && Tells(w, disk, BLANK)
    ensures Tells(w, DiskAfter(w, disk, launches, n), story) && Originated(launches, n, story)
  {
    hide Launchable, Session, Lawful, LogsTell, SaveTells, Aligned, Faithful, Admitted;
    if n == 0 {
      story := BLANK;
    } else {
      hide Tells, Originated;
      var before := DiskTells(w, disk, launches, n - 1);
      var seed;
      story, seed := LaunchFaithful(w, disk, launches, n - 1, before);
    }
  }

  /** The files of a run after n rounds: its log holds exactly the rows of those rounds, and if it saves, the
      checkpoint is the boundary after them and the digest vouches for it. */
  ghost predicate FilesAt(disk: Disk, run: Runner, seed: int, control: Control, n: nat) {
    && LogOf(run.cfg) in disk.csv && disk.csv[LogOf(run.cfg)] == RowsAfter(run, seed, n)
    && (control.checkpointEnabled ==> exists elapsed :: SealedAt(disk, run, seed, n, elapsed))
  }

  ghost predicate CheckpointAt(disk: Disk, run: Runner, seed: int, n: nat, elapsed: real) {
    disk.checkpoint == Some(Saved(run, seed, n, elapsed))
  }

  ghost predicate SealedAt(disk: Disk, run: Runner, seed: int, n: nat, elapsed: real) {
    CheckpointAt(disk, run, seed, n, elapsed) && disk.digest == Some(Hex(Saved(run, seed, n, elapsed)))
  }

  lemma StandsHasFiles(w: World, disk: Disk, base: Story, run: Runner, seed: int, control: Control, n: nat,
                       after: Story)
    requires Tells(w, disk, after) && StandsAt(base, run, seed, control, n, after) && n > 0
    ensures FilesAt(disk, run, seed, control, n)
  {
    var elapsed :| after == BoundaryStory(base, run, seed, control, n, elapsed);
    assert LogTells(w, disk.csv, LogOf(run.cfg), after.logs[LogOf(run.cfg)]);
    RowsCount(w, run, seed, n);
    if control.checkpointEnabled {
      assert SealedAt(disk, run, seed, n, elapsed);
    }
  }

  /** Resume refinement and crash consistency over whole histories: whatever processes were launched before in the
      directory, with whatever configurations, pauses and kills, a process that completes ends with exactly the state
      and the log rows of the uninterrupted run of its configuration begun by one of the fresh starts. */
  lemma CompletedIsUninterrupted(w: World, disk: Disk, launches: seq<Launch>, n: nat) returns (origin: nat)
    requires n < |launches| && Launchable(w, launches) && Tells(w, disk, BLANK)
    requires EndingOf(w, disk, launches, n).Completed?
    ensures origin <= n && StartedBy(launches, n + 1, launches[n].run, launches[origin].plan.privacySeed, origin)
    ensures var run, seed := launches[n].run, launches[origin].plan.privacySeed;
            && EndingOf(w, disk, launches, n).final == Reach(run, seed, run.cfg.rounds)
            && FilesAt(DiskAfter(w, disk, launches, n + 1), run, seed, launches[n].plan.control, run.cfg.rounds)
  {
    hide Session, Lawful, Tells, Originated, Admitted, Faithful, FilesAt, Beneath;
    var x := launches[n];
    var before := DiskTells(w, disk, launches, n);
    var after, seed := LaunchFaithful(w, disk, launches, n, before);
    CompletedStands(w, DiskAfter(w, disk, launches, n + 1), Beneath(before, x.run, x.plan), seed, x,
                    FirstRound(before, x.plan), EndingOf(w, disk, launches, n), after);
    origin :| StartedBy(launches, n + 1, x.run, seed, origin);
  }

  lemma CompletedStands(w: World, disk: Disk, base: Story, seed: int, x: Launch, first: nat, ending: Ending,
                        after: Story)
    requires Tells(w, disk, after) && ending.Completed? && x.run.cfg.rounds > 0
    requires Faithful(base, x.run, seed, x.plan, first, LoopWrites(x.plan), ending, after)
    ensures ending.final == Reach(x.run, seed, x.run.cfg.rounds)
    ensures FilesAt(disk, x.run, seed, x.plan.control, x.run.cfg.rounds)
  {
    hide Tells;
    StandsHasFiles(w, disk, base, x.run, seed, x.plan.control, x.run.cfg.rounds, after);
  }

  /** A directory that a resumed process with this log could continue. */
  predicate Resumable(disk: Disk, log: LogName) {
    VerifiedPayload(disk).Ok?
    && var p := VerifiedPayload(disk).value;
       LogOf(p.fingerprint.semantic) == log && |Rows(disk.csv, log)| == p.roundsCompleted
  }

  /** The files alone decide whether process n is rejected. */
  lemma RejectedExactly(w: World, disk: Disk, launches: seq<Launch>, n: nat)
    requires n < |launches| && Launchable(w, launches) && Tells(w, disk, BLANK)
    ensures var x, found := launches[n], DiskAfter(w, disk, launches, n);
            EndingOf(w, disk, launches, n).Rejected? <==>
              if x.plan.control.resume then
                !(&& Resumable(found, LogOf(x.run.cfg))
                  && VerifiedPayload(found).value.fingerprint == FingerprintOf(x.run.cfg)
                  && VerifiedPayload(found).value.elapsed >= 0.0)
              else
                Rows(found.csv, LogOf(x.run.cfg)) != [] || (x.plan.control.checkpointEnabled && found.checkpoint.Some?)
    ensures EndingOf(w, disk, launches, n).Rejected? ==>
      DiskAfter(w, disk, launches, n + 1) == DiskAfter(w, disk, launches, n)
  {
    hide Faithful;
    var x := launches[n];
    var before := DiskTells(w, disk, launches, n);
    var _, _ := LaunchFaithful(w, disk, launches, n, before);
    StoryOnDisk(w, DiskAfter(w, disk, launches, n), before, LogOf(x.run.cfg));
  }

  /** A log with rows that no resumed process could continue. */
  ghost predicate Stuck(story: Story, log: LogName) {
    && log in story.logs
    && (story.save.Some? && story.save.value.sealed && LogOf(story.save.value.run.cfg) == log ==>
          story.logs[log].rounds != story.save.value.rounds)
  }

  lemma StoryOnDisk(w: World, disk: Disk, story: Story, log: LogName)
    requires Tells(w, disk, story)
    ensures Rows(disk.csv, log) != [] <==> log in story.logs
    ensures VerifiedPayload(disk).Ok? <==> story.save.Some? && story.save.value.sealed
    ensures VerifiedPayload(disk).Ok? ==> var s := story.save.value;
            VerifiedPayload(disk).value == Saved(s.run, s.seed, s.rounds, s.elapsed)
    ensures log in story.logs ==> |Rows(disk.csv, log)| == story.logs[log].rounds
    ensures Stuck(story, log) <==> Rows(disk.csv, log) != [] && !Resumable(disk, log)
  {
    hide VerifiedPayload;
    VerifiedTold(disk, story.save);
    assert if log in story.logs then LogTells(w, disk.csv, log, story.logs[log]) else Rows(disk.csv, log) == [];
    if log in story.logs {
      RowsCount(w, story.logs[log].run, story.logs[log].seed, story.logs[log].rounds);
    }
  }

  lemma StuckStays(base: Story, run: Runner, seed: int, plan: Plan, before: Story, after: Story, log: LogName)
    requires Stuck(before, log) && LogOf(run.cfg) != log && base == Beneath(before, run, plan)
    requires Beside(base, run, seed, plan.control, after)
    ensures Stuck(after, log) && after.logs[log] == before.logs[log]
  {
    assert log in base.logs && log in after.logs - {LogOf(run.cfg)};
  }

  lemma {:induction false} StuckUntil(w: World, disk: Disk, launches: seq<Launch>, log: LogName, k: nat, n: nat)
    returns (story: Story)
    requires k <= n <= |launches| && Launchable(w, launches) && Tells(w, disk, BLANK)
    requires Rows(DiskAfter(w, disk, launches, k).csv, log) != [] && !Resumable(DiskAfter(w, disk, launches, k), log)
    ensures Tells(w, DiskAfter(w, disk, launches, n), story) && Originated(launches, n, story) && Stuck(story, log)
    ensures Rows(DiskAfter(w, disk, launches, n).csv, log) == Rows(DiskAfter(w, disk, launches, k).csv, log)
  {
    hide Launchable, Tells, Originated, Stuck, Session, Lawful, Resumable, VerifiedPayload, Rows;
    if n == k {
      story := DiskTells(w, disk, launches, n);
      StoryOnDisk(w, DiskAfter(w, disk, launches, n), story, log);
    } else {
      var before := StuckUntil(w, disk, launches, log, k, n - 1);
      story := StuckStep(w, disk, launches, log, n - 1, before);
    }
  }

  lemma StuckStep(w: World, disk: Disk, launches: seq<Launch>, log: LogName, n: nat, before: Story)
    returns (after: Story)
    requires n < |launches| && Launchable(w, launches) && Stuck(before, log)
    requires Tells(w, DiskAfter(w, disk, launches, n), before) && Originated(launches, n, before)
    ensures Tells(w, DiskAfter(w, disk, launches, n + 1), after)
    ensures Originated(launches, n + 1, after) && Stuck(after, log)
    ensures LogOf(launches[n].run.cfg) == log ==> EndingOf(w, disk, launches, n).Rejected?
    ensures Rows(DiskAfter(w, disk, launches, n + 1).csv, log) == Rows(DiskAfter(w, disk, launches, n).csv, log)
  {
    hide Faithful, Session, Lawful;
    var x := launches[n];
    var seed;
    after, seed := LaunchFaithful(w, disk, launches, n, before);
    if !EndingOf(w, disk, launches, n).Rejected? {
      FaithfulIsBeside(Beneath(before, x.run, x.plan), x.run, seed, x.plan, FirstRound(before, x.plan),
                       LoopWrites(x.plan), EndingOf(w, disk, launches, n), after);
      StuckStays(Beneath(before, x.run, x.plan), x.run, seed, x.plan, before, after, log);
      assert LogTells(w, DiskAfter(w, disk, launches, n).csv, log, before.logs[log]);
      assert LogTells(w, DiskAfter(w, disk, launches, n + 1).csv, log, before.logs[log]);
    }
  }

  /** What a kill between the append to a log and the replacement of the digest costs: once a log has rows and the
      directory cannot be resumed with it, no later process that writes this log gets past its start-up checks, fresh
      or resumed, and the rows stay as they are, whatever processes with other logs do in the directory. */
  lemma {:induction false} TornLogIsFinal(w: World, disk: Disk, launches: seq<Launch>, log: LogName, k: nat, n: nat)
    requires k <= n < |launches| && Launchable(w, launches) && Tells(w, disk, BLANK)
    requires Rows(DiskAfter(w, disk, launches, k).csv, log) != [] && !Resumable(DiskAfter(w, disk, launches, k), log)
    ensures LogOf(launches[n].run.cfg) == log ==> EndingOf(w, disk, launches, n).Rejected?
    ensures Rows(DiskAfter(w, disk, launches, n + 1).csv, log) == Rows(DiskAfter(w, disk, launches, k).csv, log)
  {
    var story := StuckUntil(w, disk, launches, log, k, n);
    var _ := StuckStep(w, disk, launches, log, n, story);
  }

  // ----- what a kill leaves behind -----

  /** A process changes its own log and, if it saves, the checkpoint and its digest; all other files stay. */
  ghost predicate TouchesOwn(run: Runner, control: Control, found: Disk, left: Disk) {
    && (forall other :: other != LogOf(run.cfg) ==> Rows(left.csv, other) == Rows(found.csv, other))
    && (!control.checkpointEnabled ==> left.checkpoint == found.checkpoint && left.digest == found.digest)
  }

  lemma {:induction false} LoopTouchesOwn(run: Runner, plan: Plan, disk: Disk, rt: Runtime, round: nat, writes: nat)
    ensures TouchesOwn(run, plan.control, disk, Loop(run, plan, disk, rt, round, writes).0)
    decreases run.cfg.rounds + 1 - round
  {
    if round <= run.cfg.rounds {
      var (next, row) := run.step(rt, round);
      var written := WriteRound(run, plan, disk, next, row, round, writes);
      LoopTouchesOwn(run, plan, written.disk, next, round + 1, written.writes);
    }
  }

  lemma LaunchTouchesOwn(w: World, disk: Disk, launches: seq<Launch>, n: nat)
    requires n < |launches| && Launchable(w, launches)
    ensures TouchesOwn(launches[n].run, launches[n].plan.control, DiskAfter(w, disk, launches, n),
                       DiskAfter(w, disk, launches, n + 1))
  {
    hide Session, Lawful;
    SessionTouchesOwn(w, launches[n].run, launches[n].plan, DiskAfter(w, disk, launches, n));
  }

  lemma SessionTouchesOwn(w: World, run: Runner, plan: Plan, disk: Disk)
    requires ValidControl(plan.control)
    ensures TouchesOwn(run, plan.control, disk, Session(w, run, plan, disk).0)
  {
    hide Loop, Restore;
    var log, restored := LogOf(run.cfg), Restore(w, run.cfg, run.start(plan.privacySeed), disk);
    if plan.control.resume {
      if restored.Ok? {
        LoopTouchesOwn(run, plan, disk.(csv := disk.csv[log := Rows(disk.csv, log)]), restored.value.runtime,
                       restored.value.roundsCompleted + 1, plan.writes);
      }
    } else if plan.writes > 0 {
      LoopTouchesOwn(run, plan, disk.(csv := disk.csv[log := []]), run.start(plan.privacySeed), 1, plan.writes - 1);
    }
  }

  /** The rounds that the files of an admitted process hold when it starts. */
  function RoundsFound(plan: Plan, found: Disk): nat {
    if plan.control.resume && VerifiedPayload(found).Ok? && VerifiedPayload(found).value.roundsCompleted >= 0
    then VerifiedPayload(found).value.roundsCompleted else 0
  }

  /** The rounds whose writes have all happened when a process runs out of writes. */
  function RoundsKept(plan: Plan, found: Disk): nat {
    RoundsFound(plan, found) + LoopWrites(plan) / Per(plan.control)
  }

  /** The writes of the next round that have happened. */
  function TornWrites(plan: Plan): nat {
    LoopWrites(plan) % Per(plan.control)
  }

  /** The checkpoint is the boundary after n rounds, but the digest does not vouch for it. */
  ghost predicate UnsealedAt(disk: Disk, run: Runner, seed: int, n: nat) {
    VerifiedPayload(disk).Error? && exists elapsed :: CheckpointAt(disk, run, seed, n, elapsed)
  }

  /** The files after `done` rounds and `torn` writes of the next one. */
  ghost predicate KilledFiles(left: Disk, run: Runner, seed: int, control: Control, done: nat, torn: nat) {
    && Rows(left.csv, LogOf(run.cfg)) == RowsAfter(run, seed, if torn > 0 then done + 1 else done)
    && (control.checkpointEnabled ==>
          if torn == 2 then UnsealedAt(left, run, seed, done + 1)
          else if done == 0 then left.checkpoint.None? && left.digest.None?
          else exists elapsed :: SealedAt(left, run, seed, done, elapsed))
  }

  lemma KilledRows(w: World, left: Disk, base: Story, run: Runner, seed: int, plan: Plan, done: nat, torn: nat,
                   elapsed: real)
    requires Lawful(w, run) && Vacant(base, run, plan.control) && torn < Per(plan.control)
    requires LogsTell(w, left.csv, RoundStory(base, run, seed, plan, done + 1, torn, elapsed).logs)
    ensures Rows(left.csv, LogOf(run.cfg)) == RowsAfter(run, seed, if torn > 0 then done + 1 else done)
  {
    hide Lawful, RowsAfter;
    var logs, log := RoundStory(base, run, seed, plan, done + 1, torn, elapsed).logs, LogOf(run.cfg);
    assert if log in logs then LogTells(w, left.csv, log, logs[log]) else Rows(left.csv, log) == [];
    RowsCount(w, run, seed, 0);
  }

  lemma KilledStoryFiles(w: World, left: Disk, base: Story, run: Runner, seed: int, plan: Plan, done: nat, torn: nat,
                         elapsed: real)
    requires Lawful(w, run) && Vacant(base, run, plan.control) && Aligned(base) && torn < Per(plan.control)
    requires Tells(w, left, RoundStory(base, run, seed, plan, done + 1, torn, elapsed))
    ensures KilledFiles(left, run, seed, plan.control, done, torn)
    ensures Resumable(left, LogOf(run.cfg)) <==> plan.control.checkpointEnabled && torn == 0 && done > 0
  {
    KilledRows(w, left, base, run, seed, plan, done, torn, elapsed);
    hide Lawful, RowsAfter, MakePayload, LogsTell, Resumable, VerifiedPayload;
    var story, log := RoundStory(base, run, seed, plan, done + 1, torn, elapsed), LogOf(run.cfg);
    StoryOnDisk(w, left, story, log);
    NoRowsToResume(w, left, story, log);
    if plan.control.checkpointEnabled && torn != 2 && done > 0 { assert SealedAt(left, run, seed, done, elapsed); }
    if torn == 2 { assert CheckpointAt(left, run, seed, done + 1, plan.elapsed(done + 1)); }
  }

  /** A log without rows is not resumable. */
  lemma NoRowsToResume(w: World, disk: Disk, story: Story, log: LogName)
    requires Tells(w, disk, story)
    ensures Resumable(disk, log) ==> log in story.logs
  {
    StoryOnDisk(w, disk, story, log);
    hide LogsTell, VerifiedPayload;
  }

  lemma AdmittedIsVacant(w: World, disk: Disk, story: Story, run: Runner, plan: Plan)
    requires Admitted(run, plan, story) && Tells(w, disk, story) && ValidControl(plan.control)
    ensures Vacant(Beneath(story, run, plan), run, plan.control) && Aligned(Beneath(story, run, plan))
    ensures FirstRound(story, plan) == RoundsFound(plan, disk) + 1
  {
    StoryOnDisk(w, disk, story, LogOf(run.cfg));
    hide LogsTell, VerifiedPayload, Resumable;
  }

  /** A process that is killed has kept exactly the rounds whose writes all happened, of the uninterrupted run begun by
      one of the fresh starts, and the writes of the next round that happened. Its log can be resumed exactly when it
      saves, some round is kept and no write of the next one happened. */
  lemma KilledLaunch(w: World, disk: Disk, launches: seq<Launch>, n: nat) returns (origin: nat)
    requires n < |launches| && Launchable(w, launches) && Tells(w, disk, BLANK)
    requires EndingOf(w, disk, launches, n).Crashed?
    ensures origin <= n && StartedBy(launches, n + 1, launches[n].run, launches[origin].plan.privacySeed, origin)
    ensures var x, left := launches[n], DiskAfter(w, disk, launches, n + 1);
            var done, torn := RoundsKept(x.plan, DiskAfter(w, disk, launches, n)), TornWrites(x.plan);
            && done < x.run.cfg.rounds
            && KilledFiles(left, x.run, launches[origin].plan.privacySeed, x.plan.control, done, torn)
            && (Resumable(left, LogOf(x.run.cfg)) <==> x.plan.control.checkpointEnabled && torn == 0 && done > 0)
  {
    hide Session, Lawful, Tells, Originated, Admitted, KilledFiles, Resumable, Beneath, Vacant, Aligned, RoundsFound;
    var x := launches[n];
    var before := DiskTells(w, disk, launches, n);
    var after, seed := LaunchFaithful(w, disk, launches, n, before);
    AdmittedIsVacant(w, DiskAfter(w, disk, launches, n), before, x.run, x.plan);
    var base, done, torn := Beneath(before, x.run, x.plan), RoundsKept(x.plan, DiskAfter(w, disk, launches, n)),
                            TornWrites(x.plan);
    var elapsed :| after == RoundStory(base, x.run, seed, x.plan, done + 1, torn, elapsed);
    hide RoundStory;
    KilledStoryFiles(w, DiskAfter(w, disk, launches, n + 1), base, x.run, seed, x.plan, done, torn, elapsed);
    origin :| StartedBy(launches, n + 1, x.run, seed, origin);
  }

  /** A kill between the append to a log and the replacement of the digest, or any kill of a process that does not save
      once a row is logged, closes the log: every later process that writes it is rejected. */
  lemma KilledLogIsClosed(w: World, disk: Disk, launches: seq<Launch>, n: nat, m: nat)
    requires n < m < |launches| && Launchable(w, launches) && Tells(w, disk, BLANK)
    requires EndingOf(w, disk, launches, n).Crashed? && LogOf(launches[m].run.cfg) == LogOf(launches[n].run.cfg)
    requires if launches[n].plan.control.checkpointEnabled then TornWrites(launches[n].plan) > 0
             else RoundsKept(launches[n].plan, DiskAfter(w, disk, launches, n)) > 0
    ensures EndingOf(w, disk, launches, m).Rejected?
  {
    hide Session, Lawful, Tells, Resumable, RoundsKept, TornWrites;
    var x, left := launches[n], DiskAfter(w, disk, launches, n + 1);
    var origin := KilledLaunch(w, disk, launches, n);
    var done, torn := RoundsKept(x.plan, DiskAfter(w, disk, launches, n)), TornWrites(x.plan);
    RowsCount(w, x.run, launches[origin].plan.privacySeed, if torn > 0 then done + 1 else done);
    TornLogIsFinal(w, disk, launches, LogOf(x.run.cfg), n + 1, m);
  }

  /** A process that is killed at a round boundary after saving loses nothing: the next resume of its configuration,
      unless a clock ran backwards, is not rejected and ends where the uninterrupted run ends unless it is paused or
      killed again. */
  lemma KilledThenResumed(w: World, disk: Disk, launches: seq<Launch>, n: nat) returns (origin: nat)
    requires n + 1 < |launches| && Launchable(w, launches) && Tells(w, disk, BLANK)
    requires EndingOf(w, disk, launches, n).Crashed? && launches[n].plan.control.checkpointEnabled
    requires TornWrites(launches[n].plan) == 0 && RoundsKept(launches[n].plan, DiskAfter(w, disk, launches, n)) > 0
    requires launches[n + 1].run == launches[n].run && launches[n + 1].plan.control == Control(true, true)
    requires VerifiedPayload(DiskAfter(w, disk, launches, n + 1)).Ok? ==>
      VerifiedPayload(DiskAfter(w, disk, launches, n + 1)).value.elapsed >= 0.0
    ensures origin <= n && StartedBy(launches, n + 1, launches[n].run, launches[origin].plan.privacySeed, origin)
    ensures var run, next := launches[n].run, EndingOf(w, disk, launches, n + 1);
            && !next.Rejected?
            && (next.Completed? ==> next.final == Reach(run, launches[origin].plan.privacySeed, run.cfg.rounds))
  {
    hide Session, Lawful, Tells, Originated, Admitted, KilledFiles, Resumable, Beneath, Vacant, Aligned, RoundsFound;
    var x, again := launches[n], launches[n + 1].plan;
    var before := DiskTells(w, disk, launches, n);
    var between, seed := LaunchFaithful(w, disk, launches, n, before);
    AdmittedIsVacant(w, DiskAfter(w, disk, launches, n), before, x.run, x.plan);
    var base, done := Beneath(before, x.run, x.plan), RoundsKept(x.plan, DiskAfter(w, disk, launches, n));
    var elapsed :| between == RoundStory(base, x.run, seed, x.plan, done + 1, 0, elapsed);
    BoundaryAdmits(w, DiskAfter(w, disk, launches, n + 1), base, x.run, seed, x.plan, done, elapsed, again);
    var after, same := LaunchFaithful(w, disk, launches, n + 1, between);
    hide RoundStory, Faithful;
    CompletedEndsAt(Beneath(between, x.run, again), seed, x.run, again, FirstRound(between, again),
                    EndingOf(w, disk, launches, n + 1), after);
    origin :| StartedBy(launches, n + 1, x.run, seed, origin);
  }

  /** A directory that stands at a boundary of a saving run admits a resume of it. */
  lemma BoundaryAdmits(w: World, left: Disk, base: Story, run: Runner, seed: int, plan: Plan, done: nat, elapsed: real,
                       again: Plan)
    requires done > 0 && plan.control.checkpointEnabled && again.control == Control(true, true)
    requires Tells(w, left, RoundStory(base, run, seed, plan, done + 1, 0, elapsed))
    requires VerifiedPayload(left).Ok? ==> VerifiedPayload(left).value.elapsed >= 0.0
    ensures var story := RoundStory(base, run, seed, plan, done + 1, 0, elapsed);
            Admitted(run, again, story) && story.save.Some? && story.save.value.seed == seed
  {
    StoryOnDisk(w, left, RoundStory(base, run, seed, plan, done + 1, 0, elapsed), LogOf(run.cfg));
    hide LogsTell, VerifiedPayload, Resumable;
  }

  /** A paused process leaves a directory that a resume of the same configuration continues, provided the clock did
      not run backwards: the files stand at the round of the pause, and the resumed process ends where the
      uninterrupted run ends unless it is paused or killed again. */
  lemma PausedThenResumed(w: World, disk: Disk, launches: seq<Launch>, n: nat) returns (origin: nat)
    requires n + 1 < |launches| && Launchable(w, launches) && Tells(w, disk, BLANK)
    requires EndingOf(w, disk, launches, n).Paused? && (forall k :: launches[n].plan.elapsed(k) >= 0.0)
    requires launches[n + 1].run == launches[n].run && launches[n + 1].plan.control == Control(true, true)
    ensures origin <= n && StartedBy(launches, n + 1, launches[n].run, launches[origin].plan.privacySeed, origin)
    ensures var run, seed := launches[n].run, launches[origin].plan.privacySeed;
            var next := EndingOf(w, disk, launches, n + 1);
            && FilesAt(DiskAfter(w, disk, launches, n + 1), run, seed, launches[n].plan.control,
                       EndingOf(w, disk, launches, n).round)
            && !next.Rejected? && (next.Completed? ==> next.final == Reach(run, seed, run.cfg.rounds))
  {
    hide Session, Lawful, LogsTell, SaveTells, FilesAt, Originated, Faithful, Admitted;
    var x, again := launches[n], launches[n + 1].plan;
    var before := DiskTells(w, disk, launches, n);
    var between, seed := LaunchFaithful(w, disk, launches, n, before);
    PausedStands(w, DiskAfter(w, disk, launches, n + 1), Beneath(before, x.run, x.plan), seed, x,
                 FirstRound(before, x.plan), between, EndingOf(w, disk, launches, n), again);
    var after, same := LaunchFaithful(w, disk, launches, n + 1, between);
    CompletedEndsAt(Beneath(between, x.run, again), seed, x.run, again, FirstRound(between, again),
                    EndingOf(w, disk, launches, n + 1), after);
    origin :| StartedBy(launches, n + 1, x.run, seed, origin);
  }

  lemma PausedStands(w: World, disk: Disk, base: Story, seed: int, x: Launch, first: nat, after: Story, ending: Ending,
                     again: Plan)
    requires Tells(w, disk, after) && ending.Paused?
    requires Faithful(base, x.run, seed, x.plan, first, LoopWrites(x.plan), ending, after)
    requires (forall k :: x.plan.elapsed(k) >= 0.0) && again.control == Control(true, true)
    ensures FilesAt(disk, x.run, seed, x.plan.control, ending.round)
    ensures Admitted(x.run, again, after) && after.save.Some? && after.save.value.seed == seed
  {
    hide Tells;
    assert StandsAt(base, x.run, seed, x.plan.control, ending.round, after);
    StandsHasFiles(w, disk, base, x.run, seed, x.plan.control, ending.round, after);
  }

  lemma CompletedEndsAt(base: Story, seed: int, run: Runner, plan: Plan, first: nat, ending: Ending, after: Story)
    ensures Faithful(base, run, seed, plan, first, LoopWrites(plan), ending, after) && ending.Completed? ==>
      ending.final == Reach(run, seed, run.cfg.rounds)
  {}
}
