# A verified model of the federated-learning platform

This project models the stateful and arithmetic heart of a federated-learning platform: the Python training runtime
(server, clients, privacy accounting, checkpoints, held-out evaluation) and the C++ coordinator (persistent stores,
signing-key registry, event history, canonical capability payloads). Code that updates state in place is a class or a
method over an array, proved equal to a specification function; the properties are theorems about those functions.

`dafny verify dfyconfig.toml` checks everything.

## What is proved

**Resumable federated run** (`Vectors`, `ClientUpdate`, `FederatedServer`, `FederatedRun`, `RuntimeCheckpoint`,
`ResumableRuntime`, `ResumableExperiment`, `FederatedProcess`). A process is given a number of durable writes before it
is killed, so every placement of a crash between CSV append, checkpoint replace and digest replace is covered. Launches
share one control directory, with its checkpoint and digest; each writes the round log of its own results directory and
algorithm. After any number of launches (fresh or resumed, paused, killed, with any configurations), one that ends in
completion ends in exactly the state and the log rows of the uninterrupted run of its configuration. A launch that is
killed has kept every round whose writes all happened, and can be resumed exactly when it was killed between two rounds.
Which launches are rejected, and then change nothing, is decided exactly by the files. Training, evaluation and the random generators are
uninterpreted functions of the configuration and the state that the code passes to them.

**Privacy arithmetic** (`RealMath`, `BinomialMean`, `DpAccountant`, `PrivacyBudget`). The log-domain sum is the binomial
sum, which is a trial-by-trial mean; from this follow the RDP bounds, monotonicity in sampling rate, noise and steps, and
the guarantees of the noise search. `exp`, `log` and `sqrt` are parameters characterised by their usual laws.

**Stores** (`ByteStrings`, `KeyOrder`, `Fnv1a`, `ChecksumFrame`, `RecordStore`, `AccountantStore`, `TaskSequenceStore`).
The tab-separated codec and the checksum frame are modelled once and instantiated three times.

**Signing keys** (`SigningKeys`, `SigningKeyRegistry`), **events** (`EventBus`), **capability statements** (`JsonStrings`,
`CapabilityStatement`), **held-out partitions and fairness** (`Apportionment`, `HeldOutPartition`, `FairnessMetrics`).

## Findings

- The registry's header promises at most one key in its grace period (`coordinator_signing_key_registry.hpp:114-119`).
  Two rotations in quick succession leave two (`TwoKeysInGrace`); the promise holds over a run exactly when every
  accepted rotation with a grace period finds no key in grace (`OneGraceExactlyWhenGuarded`).
- `register_initial_key` for a known key returns the stored record without evaluating expiry, the one place where the
  expiry sweep is visible (`SweepShowsInRegistration`): a sweep shows exactly when the key's time has come and no sweep
  has noted it yet (`SweepShowsExactly`).
- If the clock runs backwards two keys can be active at once (`BackwardClockRevivesKey`). Whatever the clock does, at
  most one is, exactly when every registration that adds a key finds none stored as active (`OneActiveExactlyWhenAlone`).
- A rotation from or to the empty id breaks the rotation links (`EmptyIdBreaksLinks`); they stay mutually inverse over
  a run exactly when no accepted rotation is one (`LinkedExactlyWhenNamed`).
- Composing a mechanism without noise that runs for zero steps gives `nan` for its curve and an infinite epsilon, although
  the mechanism spends nothing (`ComposedFinite`, `ComposeSplits`).
- A saving launch makes three durable writes a round, after one for the header of a fresh log. If it is killed in the
  middle of a round, so after a number of writes that three does not divide, its log is closed for good: every later
  launch that writes the same log is rejected, whatever launches with other logs do in the meantime (`KilledLaunch`,
  `KilledLogIsClosed`, `TornLogIsFinal`). Killed between two rounds it loses nothing (`KilledThenResumed`). A fresh launch
  with another results directory or algorithm is still admitted, unless it is to save and a checkpoint exists
  (`RejectedExactly`).
- The accountant store validates and commits under separate locks, and a commit does not look again. A commit that
  overtakes another makes a track fall back although both candidates were accepted (`OvertakenCommit`). A track moves on
  over a run exactly when every candidate would still be accepted at the moment it takes effect (`TracksMoveOn`), for
  which it is enough that nothing changes the track between a validation and its commit (`UndisturbedLandsInOrder`).
- The orders given to `rdp_to_epsilon` are sorted and freed of repetitions before they are paired with the RDP values, so
  the list the values are paired with is the caller's exactly if that is strictly increasing (`OrdersKeptExactly`); for
  the orders 3, 2 it is 2, 3 (`UnsortedOrdersMove`).
- A cohort that names a client twice breaks SCAFFOLD's conservation law (`DuplicatesBreakConservation`) unless the changes
  that later results of the same client supersede cancel out (`ConservedExactly`); the sampler never draws one
  (`CohortIsDistinct`).
- The escaper maps malformed UTF-8 and well-formed text to the same output (`MalformedCollides`); a literal reads back
  as its text exactly when that is well-formed (`ReadsBackExactly`). The texts of a capability statement are proto3
  `string` fields (`proto/worker/worker.proto:91-116`), which are defined to hold UTF-8, so malformed bytes can only come
  from a statement filled in by other code or by a parser that does not check. U+007F is left as it is (`EscapedIsAscii`).
- The sequence store's file for an empty map would not load (`RestartFindsCounters`); the program never writes one.
- The FNV offset basis in the code, 1469598103934665603, is not the published one; the model follows the code.

## Model

| member | source | states |
|---|---|---|
| ClientUpdate.FlatL2Norm | federated/client.py:20-24 | the accumulation loop returns the Euclidean norm of the flattened state |
| Vectors.NormIsEuclidean | federated/client.py:20-24 | which is the non-negative root of the sum of the squared entries |
| ClientUpdate.ClipStateUpdate | federated/client.py:33-40 | a clipped update is a positive multiple of the raw update whose norm is the clip norm up to the guard of 1e-12, never more; it is unchanged unless flagged; an error exactly for a non-positive clip norm |
| ClientUpdate.ClipFactorBounds | federated/client.py:36-40 | the factor is 1 unless the norm with the guard of 1e-12 exceeds the clip norm; then it brings exactly that down to the clip norm |
| ClientUpdate.ControlIsMeanGradient | federated/client.py:111-189 | after SCAFFOLD's shifted steps, which use weight decay and no momentum, the new local control variate is the mean of the regularised gradients (batch gradient plus decay) that the client saw |
| FederatedServer.SumNorm | federated/server.py:273-281 | the sum of n clipped updates has norm at most n C |
| FederatedServer.MeanNorm | federated/server.py:202-216 | the noise-free cohort mean has norm at most C |
| FederatedServer.Sensitivity | federated/server.py:273-281 | adding or removing one client anywhere in the cohort changes the sum by exactly its update, so by at most C |
| FederatedServer.WeightedInHull | federated/server.py:260-271 | every coordinate of the sample-weighted average lies between the smallest and largest client value |
| FederatedServer.UniformStep | federated/server.py:202-304 | with uniform weights every coordinate of the model moves by the server's rate times the mean of the clients' deltas and the noise |
| FederatedServer.SampleStep | federated/server.py:193-304 | weighted by samples it moves by the server's rate times the sample-weighted mean |
| FederatedServer.NoiseDrawn | federated/server.py:202-293 | an empty cohort moves nothing; the noise is one draw with standard deviation noise multiplier times clip norm under DP, and zero otherwise |
| FederatedServer.ColumnTelescopes | federated/server.py:241-249 | the accumulated control changes times the cohort size are the change of the sum of all local control variates plus what later results of the same client supersede |
| FederatedServer.ScaffoldConserves | federated/server.py:223-254 | aggregation keeps the global control variate equal to the mean of the local ones, for any cohort of distinct clients and for the empty one |
| FederatedServer.ConservedExactly | federated/server.py:223-254 | one aggregation keeps the law exactly when the control changes superseded by later results of the same client cancel out at every coordinate |
| FederatedServer.DuplicatesBreakConservation | federated/server.py:242-254 | such a cohort, naming a client twice, for which the law breaks |
| FederatedServer.Server.SumOfDeltas | federated/server.py:273-281 | the loop computes the reference sum |
| FederatedServer.Server.WeightedAverageDelta | federated/server.py:260-271 | the loop computes the reference weighted average, is empty for an empty cohort, and fails exactly on a non-empty cohort without samples |
| FederatedServer.Server.NoisyMean | federated/server.py:204-216 | sum, noise drawn from the generator under DP, division by the cohort size |
| FederatedServer.Server.AccumulateControls | federated/server.py:241-249 | the in-place loop replaces the local variates and sums the changes |
| FederatedServer.Server.AggregateRound | federated/server.py:184-191 | one aggregation call moves model, control variates, generator and round count exactly as the specification, or fails and changes nothing |
| FederatedServer.Server.ExportRuntimeState | federated/server.py:101-122 | the exported snapshot is complete and loadable |
| FederatedServer.Server.LoadRuntimeState | federated/server.py:124-182 | loading succeeds exactly on a snapshot that fits, and then restores every part of the state |
| FederatedRun.CohortIsDistinct | experiment_runtime.py:291-310 | every sampling strategy returns distinct known clients |
| FederatedRun.PoissonSelects | experiment_runtime.py:298-303 | Poisson sampling draws once per client and selects it exactly when its draw is below the rate |
| FederatedRun.CohortIsNearest | experiment_runtime.py:308-310 | a fixed cohort has the nearest whole number of clients, the even one if two are |
| FederatedRun.TransmittedMeans | federated/client.py:148-162 | what a client transmits: its raw delta, or under DP the multiple of it that clipping gives |
| FederatedRun.CohortIsClipped | federated/client.py:151-162 | under DP every update of a trained cohort is within the clip norm |
| FederatedRun.TrainedFits | federated/resumable_runtime.py:268-278 | the results of a trained cohort meet everything aggregation asks for |
| FederatedRun.ScaffoldMeanAtEveryBoundary | federated/server.py:71-77 | from zeros, at every round boundary of every run the global control variate is the mean of all local ones |
| FederatedRun.SeedIrrelevantWithoutDp | federated/resumable_runtime.py:188-188 | without DP the privacy seed influences nothing |
| ResumableExperiment.EpsilonNeverFalls | federated/resumable_runtime.py:282-375 | along a run's history the reported epsilon never falls |
| RuntimeCheckpoint.NumpyRoundTrip | federated/runtime_checkpoint.py:78-108 | the NumPy state survives its payload form exactly when it has keys |
| RuntimeCheckpoint.SaveRestore | federated/runtime_checkpoint.py:111-264 | a saved boundary restores to itself exactly under the same configuration and a non-negative elapsed time |
| RuntimeCheckpoint.RestoreAgrees | federated/runtime_checkpoint.py:158-264 | whatever the files hold, a restore succeeds exactly on a vouched-for checkpoint of this configuration whose history length, server round count and accountant steps all equal its rounds and whose states fit the process |
| ResumableRuntime.HistoryPrefix | federated/resumable_runtime.py:358-375 | a run's history is extended, never rewritten |
| ResumableRuntime.RestoreTold | federated/runtime_checkpoint.py:158-264 | restore succeeds exactly on a sealed checkpoint of the same configuration and yields the saved round |
| ResumableRuntime.CsvTold | federated/resumable_runtime.py:101-119 | the CSV check tells a log that stands at the checkpoint from one that is a row ahead |
| ResumableRuntime.LoopFaithful | federated/resumable_runtime.py:258-423 | the round loop keeps all rounds when it completes, those up to the first requested pause when it is paused, and when it is killed every round whose writes all happened and the writes of the next one; it touches nothing beside its own log and checkpoint |
| ResumableRuntime.SessionFaithful | federated/resumable_runtime.py:225-427 | crash consistency of one launch: rejected without effect exactly when not admitted, otherwise it continues from exactly the last completed round and keeps what its ending says, for a kill the rounds whose writes all happened |
| ResumableRuntime.DiskTells | federated/resumable_runtime.py:225-427 | after any number of launches every log holds the first rounds of a run that one of them started, and the checkpoint is a boundary of the run of its log |
| ResumableRuntime.CompletedIsUninterrupted | federated/resumable_runtime.py:225-427 | a completed launch ends in the state of the uninterrupted run of its configuration started by one of the fresh launches, with exactly that run's rows in its log and, if it saves, that run's sealed checkpoint |
| ResumableRuntime.RejectedExactly | federated/resumable_runtime.py:225-251 | after any launches, the files a launch finds decide exactly whether it is rejected, and then it changes nothing |
| ResumableRuntime.LaunchTouchesOwn | federated/resumable_runtime.py:220-405 | a launch changes no log but its own and, if it does not save, neither checkpoint nor digest |
| ResumableRuntime.KilledLaunch | federated/resumable_runtime.py:357-405 | a killed launch has left exactly the rows, the checkpoint and the digest of the rounds whose writes all happened and of the writes of the next one; its log can be resumed exactly when it saves, some round is kept and no write of the next one happened |
| ResumableRuntime.KilledLogIsClosed | federated/runtime_checkpoint.py:151-154 | after a kill between the row and the digest of a round, every later launch that writes the log is rejected |
| ResumableRuntime.KilledThenResumed | federated/resumable_runtime.py:225-251 | after a kill between two rounds of a saving launch, a resume of the same configuration is not rejected and finishes the same run |
| ResumableRuntime.TornLogIsFinal | federated/resumable_runtime.py:357-405 | once a log has rows and cannot be resumed, every later launch that writes it is rejected and its rows stay, whatever other launches do |
| ResumableRuntime.PausedThenResumed | federated/resumable_runtime.py:393-421 | a pause leaves the files at its round; a resume of the same configuration is then not rejected and finishes the same run |
| ResumableExperiment.RunnerLawful | federated/resumable_runtime.py:259-375 | the federated round satisfies what the run theorems need |
| ResumableExperiment.CompletedExperiment | federated/resumable_runtime.py:159-462 | resume refinement: completed after any pauses, crashes and resumes means the final model, variates, generators, accountant steps, history and CSV rows of the uninterrupted run |
| ResumableExperiment.KilledExperiment | federated/resumable_runtime.py:159-462 | crash consistency of the federated run: the rows that a kill leaves are those of the uninterrupted run for the rounds kept |
| FederatedProcess.Process.TrainSelected | federated/resumable_runtime.py:266-278 | the client loop consumes the process generators in order and yields the reference cohort |
| FederatedProcess.Process.CommunicationRound | federated/resumable_runtime.py:260-280 | sampling, training and aggregation move the objects as the reference round |
| FederatedProcess.Process.RunRound | federated/resumable_runtime.py:259-375 | one in-place round is one step of the reference run |
| FederatedProcess.Process.Save | federated/runtime_checkpoint.py:111-155 | checkpoint first, digest second, each only if a write is left |
| FederatedProcess.Process.RestoreFrom | federated/runtime_checkpoint.py:158-264 | the in-place restore accepts and yields exactly what the reference restore does |
| FederatedProcess.RunRounds | federated/resumable_runtime.py:258-427 | the program loop equals the reference loop in files, state and ending |
| FederatedProcess.RunResumableExperiment | federated/resumable_runtime.py:159-427 | the whole program equals the reference session |
| BinomialMean.BinomialSum | federated/dp_accountant.py:43-55 | the binomial sum equals the trial-by-trial mean; for base 1 this is the binomial theorem |
| BinomialMean.MeanBounds | federated/dp_accountant.py:43-55 | the mean lies between its shortcut values |
| BinomialMean.MeanAtEnds | federated/dp_accountant.py:36-41 | the general sum collapses to the q = 0 and q = 1 branches |
| BinomialMean.ChooseFactorial | federated/dp_accountant.py:45-47 | Pascal's rule meets the factorial formula behind gammaln |
| DpAccountant.ExpLogTerm | federated/dp_accountant.py:44-54 | each log term is the logarithm of its binomial summand |
| DpAccountant.ComputeRdpSingleStep | federated/dp_accountant.py:35-55 | the loop over log terms with logsumexp returns the RDP of one step in every branch |
| DpAccountant.RdpBounds | federated/dp_accountant.py:35-55 | 0 <= RDP(q) <= alpha / (2 sigma^2), with equality at q = 1 |
| DpAccountant.RdpIsBinomialSum | federated/dp_accountant.py:44-55 | exp of alpha - 1 times the RDP is the binomial sum of e^(k(k-1)/(2 sigma^2)) |
| DpAccountant.RdpMono | federated/dp_accountant.py:35-55 | more sampling or less noise never lowers the RDP |
| DpAccountant.ComputeRdp | federated/dp_accountant.py:58-82 | validation and the composed curve on the normalised order grid |
| DpAccountant.CurveMeans | federated/dp_accountant.py:58-82 | n steps multiply a finite RDP by n; infinity stays, except that zero steps make it nan |
| DpAccountant.BestIsMinimum | federated/dp_accountant.py:98-109 | the converted epsilon is the least that any order offers, infinite exactly when no order is finite |
| DpAccountant.BestConverts | federated/dp_accountant.py:96-109 | at the returned epsilon and order e^(epsilon - rdp) to the power order - 1 times delta is exactly 1, at every other order at most 1, at every earlier one below 1 |
| DpAccountant.RdpToEpsilon | federated/dp_accountant.py:85-109 | for any list of orders, sorted and freed of repetitions, the loop returns that minimum with the first order that attains it, and fails exactly on bad input |
| DpAccountant.OrdersKeptExactly | federated/dp_accountant.py:85-97 | the list that the values are paired with is the caller's exactly when that is strictly increasing |
| DpAccountant.UnsortedOrdersMove | federated/dp_accountant.py:85-97 | a list for which it is not |
| DpAccountant.EpsilonMono | federated/dp_accountant.py:160-189 | the reported epsilon is non-negative, antitone in sigma, and non-decreasing in sampling rate and steps |
| DpAccountant.MomentsAccountant.Step | federated/dp_accountant.py:155-158 | steps accumulate; a negative count is refused and changes nothing |
| DpAccountant.MomentsAccountant.Estimate | federated/dp_accountant.py:160-189 | epsilon, order and total RDP curve of the estimate, with the shortcuts, and when it fails |
| DpAccountant.ComposeRdpCurves | federated/dp_accountant.py:112-116 | additive composition, column by column |
| PrivacyBudget.Search | federated/privacy_budget.py:135-158 | the doubling and halving loops end, and the bracket invariant holds: upper end feasible, lower end least or infeasible |
| PrivacyBudget.SearchIsTight | federated/privacy_budget.py:147-158 | for an antitone epsilon the result is tolerance-close in epsilon or bracket-close to the least feasible sigma; the bracket is the initial one divided by two to the number of iterations |
| PrivacyBudget.UnreachableMeansNone | federated/privacy_budget.py:140-145 | the error means that no sigma up to the maximum meets the target |
| PrivacyBudget.AccountantIsAntitone | federated/privacy_budget.py:126-133 | the accountant's epsilon is antitone in sigma |
| PrivacyBudget.CalibrateNoiseMultiplier | federated/privacy_budget.py:85-168 | the returned sigma meets the target, is tight in the above sense, and an error on valid input means the target is out of reach |
| PrivacyBudget.ComposedFinite | federated/privacy_budget.py:240-254 | a composition is finite exactly when every mechanism has noise or samples nobody |
| PrivacyBudget.ComposeSplits | federated/privacy_budget.py:240-249 | exactly when splitting a mechanism's steps leaves its contribution unchanged |
| PrivacyBudget.CheckMechanisms | federated/privacy_budget.py:216-237 | the checks accept exactly composable mechanisms |
| PrivacyBudget.ComposeSameAdjacencyRdp | federated/privacy_budget.py:209-263 | success exactly on composable input; epsilon is the best over the summed curve with the first order that offers it, and finite exactly under the above condition |
| ByteStrings.SplitJoined | cpp/coordinator/src/accountant_monotonicity_store.cpp:32-40 | splitting undoes joining, except that an empty last field disappears |
| ByteStrings.SplitFree | cpp/coordinator/src/accountant_monotonicity_store.cpp:32-40 | no piece contains the delimiter |
| ByteStrings.SplitText | cpp/coordinator/src/accountant_monotonicity_store.cpp:32-40 | the getline loop yields the specified pieces |
| Fnv1a.Fnv1aHash | cpp/coordinator/src/accountant_monotonicity_store.cpp:17-24 | the loop computes the 64-bit FNV-1a fold |
| Fnv1a.StepInjective | cpp/coordinator/src/accountant_monotonicity_store.cpp:19-22 | a hash step is injective in the state and in the byte, modulo 2^64 |
| Fnv1a.HashDetectsSubstitution | cpp/coordinator/src/accountant_monotonicity_store.cpp:17-24 | replacing any one byte changes the hash |
| Fnv1a.HashToHexInjective | cpp/coordinator/src/accountant_monotonicity_store.cpp:26-30 | the sixteen digits determine the hash |
| Fnv1a.HashToHexIsLowerCase | cpp/coordinator/src/accountant_monotonicity_store.cpp:26-30 | the digits are lower-case |
| ChecksumFrame.OpenSealed | cpp/coordinator/src/accountant_monotonicity_store.cpp:125-142 | a sealed body opens to itself exactly when it ends a line |
| ChecksumFrame.OpenPrefix | cpp/coordinator/src/accountant_monotonicity_store.cpp:125-142 | the only proper prefix that opens is the one without the final newline |
| ChecksumFrame.OpenSubstituted | cpp/coordinator/src/accountant_monotonicity_store.cpp:125-142 | a file with one byte replaced opens only if its final newline became a carriage return |
| RecordStore.PersistText | cpp/coordinator/src/accountant_monotonicity_store.cpp:176-185 | the loop over the map writes the specified file, in key order |
| RecordStore.LoadFile | cpp/coordinator/src/accountant_monotonicity_store.cpp:111-174 | the line loop loads what the specification says, with the same errors |
| RecordStore.LineRoundTrip | cpp/coordinator/src/accountant_monotonicity_store.cpp:158-163 | a written line reads back as its record, empty fields included |
| RecordStore.LoadPersisted | cpp/coordinator/src/accountant_monotonicity_store.cpp:111-203 | load after persist returns the same map |
| RecordStore.LoadTruncated | cpp/coordinator/src/accountant_monotonicity_store.cpp:125-173 | every proper prefix is rejected except the one missing only the final newline, which loses nothing |
| RecordStore.LoadCorrupted | cpp/coordinator/src/accountant_monotonicity_store.cpp:125-142 | every single-byte substitution is rejected except a final newline turned into a carriage return |
| RecordStore.LoadedFromFields | cpp/coordinator/src/accountant_monotonicity_store.cpp:144-163 | whatever the file, every loaded record comes from fields without tabs and newlines and lies under its own key |
| AccountantStore.RestartFindsStore | cpp/coordinator/src/accountant_monotonicity_store.cpp:44-88 | a restart finds the persisted store exactly when no text field holds a tab or a newline |
| AccountantStore.TruncationIsDetected | cpp/coordinator/src/accountant_monotonicity_store.cpp:125-173 | truncated accountant files are rejected |
| AccountantStore.CorruptionIsDetected | cpp/coordinator/src/accountant_monotonicity_store.cpp:125-142 | accountant files with one byte replaced are rejected |
| AccountantStore.RunIsSound | cpp/coordinator/src/accountant_monotonicity_store.cpp:111-304 | over any validations, commits, resets, restarts and deaths inside a commit, no restart fails and a track's record is that of the last candidate that took effect |
| AccountantStore.TracksMoveOn | cpp/coordinator/src/accountant_monotonicity_store.cpp:218-280 | over any such run the candidates in effect on a track since its reset have increasing steps, never falling epsilon, one delta and one configuration exactly when each would still be accepted at the moment it takes effect |
| AccountantStore.UndisturbedLandsInOrder | cpp/coordinator/include/fl_coordinator/accountant_monotonicity_store.hpp:129-138 | for that it is enough that candidates are validated and nothing changes the track between a validation and its commit |
| AccountantStore.OvertakenCommit | cpp/coordinator/src/accountant_monotonicity_store.cpp:261-280 | a run in which a commit overtakes another and the track falls back |
| AccountantStore.AcceptedExactly | cpp/coordinator/src/accountant_monotonicity_store.cpp:218-259 | after any run, whatever came between validations and commits, a candidate is accepted exactly when nothing took effect on its track since the reset or it continues the last candidate that did |
| AccountantStore.RefusedMeans | cpp/coordinator/src/accountant_monotonicity_store.cpp:218-259 | the reason of a refusal is the first relation to the last candidate in effect that fails |
| AccountantStore.MonotonicityStore.CommitCandidate | cpp/coordinator/src/accountant_monotonicity_store.cpp:261-280 | the candidate becomes the track's record, in memory and on file, without another look at it |
| AccountantStore.MonotonicityStore.SubmitCandidate | cpp/coordinator/include/fl_coordinator/accountant_monotonicity_store.hpp:129-138 | validate, and commit only what was accepted, with nothing in between |
| AccountantStore.MonotonicityStore.ResetTrack | cpp/coordinator/src/accountant_monotonicity_store.cpp:292-304 | a known track is removed and persisted, an unknown one is no error |
| AccountantStore.OpenStore | cpp/coordinator/src/accountant_monotonicity_store.cpp:111-174 | the constructor succeeds exactly when the file loads |
| TaskSequenceStore.RestartFindsCounters | cpp/coordinator/src/coordinator_task_sequence_store.cpp:43-104 | a restart finds the persisted counters exactly when there are some and no name holds a tab or a newline |
| TaskSequenceStore.NeverReissued | cpp/coordinator/src/coordinator_task_sequence_store.cpp:43-144 | over any calls, deaths before or after the rename, and restarts, completed calls for a pair return strictly increasing numbers and no restart fails |
| TaskSequenceStore.NextIsSuccessor | cpp/coordinator/src/coordinator_task_sequence_store.cpp:136-144 | a call returns the successor of the pair's last number and leaves every other pair alone |
| TaskSequenceStore.TaskSequences.NextSequence | cpp/coordinator/src/coordinator_task_sequence_store.cpp:136-144 | counter and file move together; 64-bit wrap-around included |
| TaskSequenceStore.PeekCountsCalls | cpp/coordinator/src/coordinator_task_sequence_store.cpp:136-151 | over any run the counter that a peek returns counts the calls that took effect on the pair, and each completed call received one number |
| TaskSequenceStore.OpenSequences | cpp/coordinator/src/coordinator_task_sequence_store.cpp:43-93 | the constructor succeeds exactly when the file loads |
| SigningKeys.RegisteredMeans | cpp/coordinator/src/coordinator_signing_key_registry.cpp:270-313 | a new key is registered exactly when well formed, with a fresh fingerprint and no active key |
| SigningKeys.RotationAcceptedMeans | cpp/coordinator/src/coordinator_signing_key_registry.cpp:315-379 | the exact conditions under which a rotation is accepted |
| SigningKeys.RotationRefusedMeans | cpp/coordinator/src/coordinator_signing_key_registry.cpp:315-379 | which reason a refused rotation gives, with the limits written out |
| SigningKeys.RegistrationMeans | cpp/coordinator/src/coordinator_signing_key_registry.cpp:304-313 | a registered key has what was asked for and is active exactly until it expires |
| SigningKeys.RotationMeans | cpp/coordinator/src/coordinator_signing_key_registry.cpp:381-416 | after an accepted rotation the new key has what was asked for and is active exactly until it expires, the old one is trusted exactly until its grace period ends, and nothing else changes |
| SigningKeys.RotationLeavesOne | cpp/coordinator/src/coordinator_signing_key_registry.cpp:381-416 | right after an accepted rotation the new key is the one active key |
| SigningKeys.AtMostOneActive | cpp/coordinator/src/coordinator_signing_key_registry.cpp:253-313 | at most one effectively active key at any time of any run whose clock does not run backwards and in which nothing comes between a rotation's validation and its commit |
| SigningKeys.BackwardClockRevivesKey | cpp/coordinator/src/coordinator_signing_key_registry.cpp:253-268 | a run with a clock that runs backwards and two active keys |
| SigningKeys.OneActiveAtEveryTime | cpp/coordinator/src/coordinator_signing_key_registry.cpp:253-268 | at most one key is active at every reading of the clock exactly when at most one is stored as active |
| SigningKeys.OneActiveExactlyWhenAlone | cpp/coordinator/src/coordinator_signing_key_registry.cpp:285-302 | whatever the clock does, that holds after every call of a run exactly when each registration that adds a key finds none stored as active |
| SigningKeys.ActiveKeyOrderIndependent | cpp/coordinator/src/coordinator_signing_key_registry.cpp:447-457 | active_key gives the same answer for every iteration order |
| SigningKeys.TrustShrinks | cpp/coordinator/src/coordinator_signing_key_registry.cpp:459-471 | between changes the trusted keys only become fewer |
| SigningKeys.TrustedInMeans | cpp/coordinator/src/coordinator_signing_key_registry.cpp:459-481 | the trusted records are exactly the effectively active and grace ones, and a list holds every effective record in order |
| SigningKeys.ChainsStayProper | cpp/coordinator/src/coordinator_signing_key_registry.cpp:381-416 | over any such run with named keys the rotation links are mutually inverse and acyclic, creation times do not fall along them, fingerprints are unique |
| SigningKeys.RotationKeepsAcyclic | cpp/coordinator/src/coordinator_signing_key_registry.cpp:392-411 | a rotation closes no cycle |
| SigningKeys.ChainsDoNotBranch | cpp/coordinator/src/coordinator_signing_key_registry.cpp:400-411 | at most one successor and one predecessor |
| SigningKeys.EmptyIdBreaksLinks | cpp/coordinator/src/coordinator_signing_key_registry.cpp:279-312 | a run in which the empty id breaks the mutual links |
| SigningKeys.LinksAfterRotation | cpp/coordinator/src/coordinator_signing_key_registry.cpp:392-411 | an accepted rotation keeps the links mutually inverse exactly when neither id is empty |
| SigningKeys.LinkedExactlyWhenNamed | cpp/coordinator/src/coordinator_signing_key_registry.cpp:381-416 | over a run the links stay mutually inverse exactly when no accepted rotation is from or to the empty id |
| SigningKeys.StatusNeverGoesBack | cpp/coordinator/src/coordinator_signing_key_registry.cpp:418-435 | over any run, whatever its ids and its clock, keys are never removed, the stored status never goes back, a revoked record is final |
| SigningKeys.RevokeMeans | cpp/coordinator/src/coordinator_signing_key_registry.cpp:418-435 | a revoked key is trusted at no time; the first revocation stores its time and reason, later ones nothing, and nothing else changes |
| SigningKeys.RevokedForGood | cpp/coordinator/src/coordinator_signing_key_registry.cpp:418-435 | after a revocation at any point of a run the key is never trusted again |
| SigningKeys.StatusMovesForward | cpp/coordinator/src/coordinator_signing_key_registry.cpp:381-435 | with named keys and a clock that does not run backwards, a key's successor never changes either |
| SigningKeys.GraceAfterRotation | cpp/coordinator/src/coordinator_signing_key_registry.cpp:392-401 | a rotation with a grace period keeps at most one key in grace exactly when none was |
| SigningKeys.OneGraceExactlyWhenGuarded | cpp/coordinator/include/fl_coordinator/coordinator_signing_key_registry.hpp:114-119 | the promised single grace key holds over a run exactly under that condition |
| SigningKeys.TwoKeysInGrace | cpp/coordinator/include/fl_coordinator/coordinator_signing_key_registry.hpp:114-119 | a run in which it fails |
| SigningKeys.SweepsAreInvisible | cpp/coordinator/src/coordinator_signing_key_registry.cpp:483-498 | a run looks the same as the run without its sweeps |
| SigningKeys.SweepsChangeNoAnswer | cpp/coordinator/src/coordinator_signing_key_registry.cpp:437-498 | sweeps at any points change no later answer of find, active_key, trusted_public_keys, list or validate_rotation |
| SigningKeys.SameRegistration | cpp/coordinator/src/coordinator_signing_key_registry.cpp:270-313 | nor whether or why a registration is refused |
| SigningKeys.SweepShowsExactly | cpp/coordinator/src/coordinator_signing_key_registry.cpp:279-283 | the record returned for a known key is the same before and after a sweep exactly unless its time has come and it is not stored as expired |
| SigningKeys.RegistrationAfterSweeps | cpp/coordinator/src/coordinator_signing_key_registry.cpp:279-283 | after two runs that differ in sweeps only, it is the same exactly when both stored it with the same status |
| SigningKeys.SweepShowsInRegistration | cpp/coordinator/src/coordinator_signing_key_registry.cpp:279-283 | a case in which a sweep shows |
| SigningKeyRegistry.RestartFindsKeys | cpp/coordinator/src/coordinator_signing_key_registry.cpp:48-90 | a restart finds the persisted registry exactly when no text field holds a tab or a newline |
| SigningKeyRegistry.RestartsAreInvisible | cpp/coordinator/src/coordinator_signing_key_registry.cpp:147-249 | over any calls, restarts and calls that die before or after their file is in place, no restart fails and the keys are those of the run of the calls that took effect |
| SigningKeyRegistry.RunsSurviveRestarts | cpp/coordinator/src/coordinator_signing_key_registry.cpp:147-249 | so the single active key and the proper rotation chains hold over restarts and deaths too |
| SigningKeyRegistry.Registry.RegisterInitialKey | cpp/coordinator/src/coordinator_signing_key_registry.cpp:270-313 | records, returned record and error as specified; file and memory agree |
| SigningKeyRegistry.Registry.ValidateRotation | cpp/coordinator/src/coordinator_signing_key_registry.cpp:315-379 | the verdict with the first failing check, without effect |
| SigningKeyRegistry.Registry.CommitRotation | cpp/coordinator/src/coordinator_signing_key_registry.cpp:381-416 | the old record is retired in place and the new one stored; file and memory agree |
| SigningKeyRegistry.Registry.RotateKey | cpp/coordinator/include/fl_coordinator/coordinator_signing_key_registry.hpp:143-147 | validate, then commit only if accepted |
| SigningKeyRegistry.Registry.RevokeKey | cpp/coordinator/src/coordinator_signing_key_registry.cpp:418-435 | the first revocation wins; an unknown key is an error |
| SigningKeyRegistry.Registry.FindKey | cpp/coordinator/src/coordinator_signing_key_registry.cpp:437-445 | the record of a known key with its effective status |
| SigningKeyRegistry.Registry.FindActiveKey | cpp/coordinator/src/coordinator_signing_key_registry.cpp:447-457 | the scan returns the first effectively active record |
| SigningKeyRegistry.Registry.TrustedPublicKeys | cpp/coordinator/src/coordinator_signing_key_registry.cpp:459-471 | the effectively active and grace records in key order |
| SigningKeyRegistry.Registry.List | cpp/coordinator/src/coordinator_signing_key_registry.cpp:473-481 | every record with its effective status, in key order |
| SigningKeyRegistry.Registry.UpdateExpiredKeys | cpp/coordinator/src/coordinator_signing_key_registry.cpp:483-498 | exactly the keys whose time has come change, and only their status; they are reported |
| SigningKeyRegistry.OpenRegistry | cpp/coordinator/src/coordinator_signing_key_registry.cpp:147-209 | the constructor succeeds exactly when the file loads |
| EventBus.EventIdInjective | cpp/coordinator/src/event_bus.cpp:72-74 | different events have different ids, also across runs |
| EventBus.Bus.Publish | cpp/coordinator/src/event_bus.cpp:70-85 | a run's history is exactly the last min(capacity, published) events of its log; other runs are untouched |
| EventBus.Bus.Poll | cpp/coordinator/src/event_bus.cpp:87-111 | the marker loop returns what follows the marker, or everything retained |
| EventBus.Bus.HistorySize | cpp/coordinator/src/event_bus.cpp:113-117 | min(capacity, published) |
| EventBus.PolledFrom | cpp/coordinator/src/event_bus.cpp:95-110 | with the id of the n-th event a poll returns exactly the later events still retained |
| EventBus.Delivery | cpp/coordinator/src/event_bus.cpp:70-111 | a subscriber polling with its last-seen id receives a strictly increasing part of the log, without repeats, missing exactly the events beyond the capacity between polls |
| EventBus.CompleteDelivery | cpp/coordinator/src/event_bus.cpp:70-111 | it misses nothing exactly when at most capacity events come between its polls |
| JsonStrings.AppendUEscape | cpp/coordinator/src/capability_statement_verifier.cpp:25-32 | appends the escape of one code unit |
| JsonStrings.EscapeIsLowerCase | cpp/coordinator/src/capability_statement_verifier.cpp:25-32 | its digits are lower-case |
| JsonStrings.JsonEscapeString | cpp/coordinator/src/capability_statement_verifier.cpp:34-123 | the index-driven loops produce the specified literal for any bytes |
| JsonStrings.DecodesUtf8 | cpp/coordinator/src/capability_statement_verifier.cpp:76-110 | the hand-written decoder inverts section 3 of RFC 3629 for multi-byte characters |
| JsonStrings.ReadsPair | cpp/coordinator/src/capability_statement_verifier.cpp:111-114 | the surrogate pair reads back per section 2.1 of RFC 2781 |
| JsonStrings.RoundTrip | cpp/coordinator/src/capability_statement_verifier.cpp:34-123 | un-escaping per section 7 of RFC 8259 returns the code points of any well-formed text and finds its end |
| JsonStrings.EscapeInjective | cpp/coordinator/src/capability_statement_verifier.cpp:34-123 | well-formed texts with the same escape are equal |
| JsonStrings.MalformedCollides | cpp/coordinator/src/capability_statement_verifier.cpp:69-91 | malformed bytes that share the escape of well-formed text |
| CapabilityStatement.ReadsBackExactly | cpp/coordinator/src/capability_statement_verifier.cpp:34-123 | a literal reads back as the text it was printed from exactly when that text is well-formed UTF-8 |
| JsonStrings.EscapedIsAscii | cpp/coordinator/src/capability_statement_verifier.cpp:34-123 | for any bytes the output is ASCII without control characters below U+0020 |
| CapabilityStatement.JsonStringArray | cpp/coordinator/src/capability_statement_verifier.cpp:145-155 | the loop prints the array of literals |
| CapabilityStatement.CanonicalPayload | cpp/coordinator/src/capability_statement_verifier.cpp:239-275 | the stream of appends prints the 21 members in order |
| CapabilityStatement.NamesAscend | cpp/coordinator/src/capability_statement_verifier.cpp:239-275 | the members come in alphabetical order |
| CapabilityStatement.ObjectRoundTrip | cpp/coordinator/src/capability_statement_verifier.cpp:239-275 | a printed object reads back as its members |
| CapabilityStatement.PayloadRoundTrip | cpp/coordinator/src/capability_statement_verifier.cpp:239-275 | the canonical payload reads back as the statement's members |
| CapabilityStatement.PayloadInjective | cpp/coordinator/src/capability_statement_verifier.cpp:239-275 | equal canonical payloads imply equal signed fields |
| CapabilityStatement.HexRoundTrip | cpp/coordinator/src/capability_statement_verifier.cpp:161-199 | decoding undoes encoding |
| CapabilityStatement.HexDecodes | cpp/coordinator/src/capability_statement_verifier.cpp:161-188 | decoding succeeds exactly on an even number of hexadecimal digits |
| CapabilityStatement.HexEncodeIsLowerCase | cpp/coordinator/src/capability_statement_verifier.cpp:190-199 | encoded bytes have lower-case digits |
| CapabilityStatement.DecodeHex | cpp/coordinator/src/capability_statement_verifier.cpp:161-188 | the loop decodes as specified |
| CapabilityStatement.EncodeHex | cpp/coordinator/src/capability_statement_verifier.cpp:190-199 | the loop encodes as specified |
| CapabilityStatement.ValidExactly | cpp/coordinator/src/capability_statement_verifier.cpp:277-301 | a statement is valid exactly when its hash is the lower-case hexadecimal digest of its payload, it spells a key of 32 and a signature of 64 bytes that check against the payload, and its positive expiry lies ahead |
| CapabilityStatement.SealedVerifies | cpp/coordinator/src/capability_statement_verifier.cpp:190-301 | a statement filled in with digest, key and signature in hexadecimal verifies until it expires exactly when key and signature have their lengths and check |
| CapabilityStatement.HashBindsFields | cpp/coordinator/src/capability_statement_verifier.cpp:277-283 | with a collision-free digest two statements that pass the hash check share a payload hash exactly when their signed fields agree |
| CapabilityStatement.TamperingIsDetected | cpp/coordinator/src/capability_statement_verifier.cpp:277-301 | changing any signed field of a valid statement is a hash mismatch |
| Apportionment.LargestRemainderAllocation | data/partitioner.py:292-314 | the in-place rounding computes the allocation; an error exactly on a negative total or bad weights |
| Apportionment.QuotaMeans | data/partitioner.py:302-308 | the quotas are the weights' shares of the total, and even shares if the weights add up to zero |
| Apportionment.AllocationSum | data/partitioner.py:292-314 | the allocation adds up to the total |
| Apportionment.WithinOne | data/partitioner.py:308-313 | every share lies between the floor and the ceiling of its quota |
| Apportionment.ZeroGetsNothing | data/partitioner.py:302-313 | a zero weight gets nothing when some weight is positive |
| Apportionment.LargerGetsNoLess | data/partitioner.py:308-313 | a larger weight never gets less, nor an equal one that comes first |
| Apportionment.NoAllocationIsCloser | data/partitioner.py:292-314 | no integer allocation of the same total has a smaller total absolute deviation |
| HeldOutPartition.BestDonorIsBest | data/partitioner.py:342-357 | the chosen donor is the greatest eligible one by class count, size and id |
| HeldOutPartition.LargestDonorIsLargest | data/partitioner.py:367-377 | the fallback donor is the greatest by size and id |
| HeldOutPartition.PreferredOrder | data/partitioner.py:331-338 | preferred classes come by falling count, then by label |
| HeldOutPartition.RepairedClient | data/partitioner.py:328-378 | one repair gives the client one sample, leaves its donor at least one and nothing else changed |
| HeldOutPartition.RepairIsConsistent | data/partitioner.py:340-365 | if a class of the client's training data can be given, the sample is of the first such class |
| HeldOutPartition.RepairSucceeds | data/partitioner.py:317-378 | with a sample per client the repair error is unreachable, empty clients end with exactly one sample, nobody is emptied, no sample is lost or duplicated |
| HeldOutPartition.DealtShares | data/partitioner.py:410-440 | before repairs every client holds its largest-remainder share of every class |
| HeldOutPartition.PartitionIsExact | data/partitioner.py:381-459 | the result is a disjoint cover of the evaluation set by non-empty sorted lists, so the closing checks never fire |
| HeldOutPartition.PartitionSucceeds | data/partitioner.py:381-459 | success exactly on a non-empty contiguous dictionary with a sample per client |
| HeldOutPartition.RepairClient | data/partitioner.py:328-378 | the search loops and the list updates in place do what is specified for one client |
| HeldOutPartition.RepairEmptyClients | data/partitioner.py:317-378 | the loop over empty clients, in place |
| HeldOutPartition.DealShares | data/partitioner.py:429-438 | the offset loop deals consecutive slices |
| HeldOutPartition.PartitionEvaluation | data/partitioner.py:381-459 | the program computes the specified partition or error |
| FairnessMetrics.EvaluateGlobal | utils/metrics.py:45-64 | the batch loop returns the fraction of correct samples for every batch size |
| FairnessMetrics.AccuracyMeans | utils/metrics.py:45-64 | which is the number of right positions over the number of samples |
| FairnessMetrics.WeightedIsGlobal | utils/metrics.py:98-106 | over any exact cover by non-empty lists the weighted client accuracy is the global accuracy |
| FairnessMetrics.ConsistencyCheckPasses | utils/client_evaluation.py:187-193 | the consistency check never fires on the partitioner's output |
| FairnessMetrics.JainBounds | utils/metrics.py:114-119 | Jain's index lies in [1/n, 1] and is 1 exactly when all accuracies are equal |
| FairnessMetrics.JainCountsServed | utils/metrics.py:114-119 | if k of n clients share one positive accuracy and the rest have none, the index is k / n |
| FairnessMetrics.EvaluateClientPartitions | utils/metrics.py:67-139 | rows and summary as specified; an error exactly on a bad batch size, no clients or an empty client |

## Left out

- Floating-point rounding: reals are exact, so the finiteness checks on tensors never fire, and doubles in stores and payloads are reals with a printer and a reader that round-trip.
- State dictionaries are flattened to vectors; integer buffers and tensor names are not modelled.
- Local training, evaluation, the generators and the normal sampler are uninterpreted functions; so are the drift, variance, clipping and loss statistics of a history row, as functions of what the clients computed.
- Launches share a directory that only such processes wrote; files edited by hand are outside the run theorems. Paths that differ name different log files.
- FederatedServer.Server.AggregateRound: does not model the copy of the model that two environment variables make it write after the final round.
- The checkpoint's bytes: a digest is a free constructor over the payload, which models a collision-free hash; elapsed time is an input of the plan.
- The paused marker file, the pause-request file and printing.
- The remove-then-rename fallback, disk errors and mutexes; persisting is one atomic replacement.
- In runs of the signing-key registry a rotation is one event: nothing comes between `validate_rotation` and `commit_rotation`.
- Human-readable details of decisions; only the reason is modelled.
- The idempotency, replay and worker stores, which repeat the codec.
- `exp`, `log` and `sqrt` are parameters with their laws, not constructions.
- Signed zero and NaN times in the registry; times are reals.
- FairnessMetrics.EvaluateClientPartitions: does not model losses, percentiles, median, deviation and range of the summary, which are library statistics.
- The random order of a class's samples is any permutation; the partitioners for training data are not modelled.
- CapabilityStatement.VerifyStatement: treats SHA-256 and the Ed25519 check as functions.
