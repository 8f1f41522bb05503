# Psyche's coordinator and its exact algorithms, verified

Psyche trains a model on many machines that do not trust each other. A deterministic coordinator
moves a run through its states, and every participant computes elections, data assignments and
proofs that all the others must arrive at too. This project models those parts and proves what
they rely on.

- **The coordinator** (`CoordinatorModel`, `Coordinator`). A run goes from waiting for members through
  a warmup, rounds of training and witnessing, and a cooldown, and then around again, until its
  steps are used up or it is paused. `CoordinatorModel` states every transition as a function that
  runs, or aborts at a named place in the source; `Coordinators.Coordinator` is the object whose methods
  update its fields in place, proved to take those transitions. `CoordinatorInvariant` holds one
  inductive invariant, and `CoordinatorSteps`, `CoordinatorWitnesses`, `CoordinatorHealth`, `CoordinatorRuns`,
  `CoordinatorEpochs`, `CoordinatorDecisions`, `CoordinatorTiming`, `CoordinatorElections`, `CoordinatorDrops`,
  `CoordinatorExits`, `CoordinatorReplies`, `CoordinatorWarmup` and `CoordinatorLiveness` prove what follows from it,
  up to whole runs; `CoordinatorQuorum` says what its quorum is, and `CoordinatorExamples` holds runs on which an expectation fails.
- **The election** (`SwapOrNot`, `Committees`). The swap-or-not shuffle of the Ethereum consensus
  specifications (phase 0, the beacon chain, `compute_shuffled_index`) is a bijection for every hash function,
  so committees have exactly the sizes that were asked for; the coordinator's accounting of witnesses rests on it.
  Who is elected is also said from nothing but seed, salt and hash, by the trace of each index through the rounds.
- **Data assignment** (`DataSelection`, `DeterministicShuffle`). A round's batch is split among its
  trainers, and the coordinator's running cursor agrees with the one recomputed from nothing.
- **Algorithms that stand alone**: the bounded list (`FixedVecs`), the Bloom filter (`Blooms`), the choice of a
  commitment by a quorum (`ConsensusCommitment`), the interval tree (`Intervals`), batch ids as text
  (`BatchIds`), the flat Merkle tree (`MerkleTrees`), divisors for the cosine transform (`DctDivisors`),
  the cancellable barrier as a concurrent protocol (`CancellableBarriers`) and the packing of
  checkpoints (`CheckpointPacking`).

Hash functions are parameters: every result holds for any hash, and where the source needs a
collision-resistant one the theorem says which of the strings hashed on the way would have to collide.

`dafny verify dfyconfig.toml` checks the whole project.

## What the code does not do

Several things one would expect of the code are false of it. For each the project has an input on which it
fails, and proves exactly when the code does what was expected.

- A warmup message is stored without a look at the index it carries, and can make a later one abort the
  coordinator (`WarmupCanAbort`; `HonestWarmupCanAbort`, where everybody sends their own index;
  `WarmupWitnessPanicsIff`).
- One client can report twice in a warmup and keep another from reporting, because the index a message carries
  is not compared with its sender (`OneClientCanReportForTwo`, `SecondMessageIsDuplicateIff`).
- The lookup of a round's clients by their old indices can name others once somebody has left
  (`HistoricalIndicesCanShift`, `RunKeepsIndicesIff`, `PurgeKeepsIndicesIff`).
- A pause between epochs that is rejected may already have withdrawn some clients (`RejectedPauseCanWithdraw`,
  `PauseIsAtomicIff`).
- At height one `previous_previous_round` answers with a slot that was never used (`HeightOneFindsUnusedSlot`,
  `EarlierRounds`).
- A health check on a verifier aborts (`HealthCheckCanAbort`, `HealthCheckMeaning`).
- Converting a Merkle proof to its owned form swaps the siblings (`OwnedProofCanFail`,
  `OwnedProofsVerifyIffTwins`).
- Removing an interval can delete another one silently (`RemovalCanLoseEntry`, `RemovalLosesEntryIff`).
- A printed batch id cannot be parsed, whichever it is (`PrintedNeverParses`, `ReadsBackIffNoGap`).
- With four witnesses a quorum is half of them, and two commitments can both have one (`FourCanTie`, `WinnerIsUnique`).
- Resetting the barrier while somebody waits breaks its promise (`ResetCanBreakPromise`, `ResetIsSafeIff`).

Where the workflow chapter of the book (`psyche-book/src/explain/general-workflow.md`) and the code
disagree the model follows the code: training ends early only when every elected witness has
reported, not at a quorum; a round is followed by the cooldown also when nobody witnessed it, when
the steps are used up, when a pause is pending and at the last step of the epoch.

## Model

| member | source | states |
|---|---|---|
| `CoordinatorRuns.RunsAreSafe` | `shared/coordinator/src/coordinator.rs:443-1146` | from any state of the invariant, whatever the sequence of ticks, messages, health checks, withdrawals, pauses and resumes: the run ends in a state of the invariant, and stops early if and only if some event meets one of the two abort conditions when its turn comes |
| `CoordinatorRuns.ApplyKeepsInv` | `shared/coordinator/src/coordinator.rs:443-661` | every single event aborts if and only if it is a warmup message whose duplicate scan runs off the client list, or a health check that asks after a verifier; otherwise it keeps the invariant. So no unwrap, unreachable, assertion or index elsewhere can fail |
| `CoordinatorRuns.InitialInv` | `shared/coordinator/src/coordinator.rs:406-430` | a paused coordinator with default progress and zeroed epoch state satisfies the invariant |
| `CoordinatorRuns.StepBudget` | `shared/coordinator/src/coordinator.rs:970-1026` | over any run the step rises by exactly the number of rounds that closed, and that number never exceeds the steps that were left |
| `CoordinatorRuns.FullRunClosesFewerRoundsThanSteps` | `shared/coordinator/src/coordinator.rs:970-1026` | a run from the start closes at most `total_steps - 1` rounds |
| `CoordinatorRuns.StepsStayInBudget` | `shared/coordinator/src/coordinator.rs:1114-1123` | `step < total_steps` while waiting, warming up or in a round; the run is finished only at exactly `total_steps` |
| `CoordinatorRuns.RoundsHaveEnoughClients` | `shared/coordinator/src/coordinator.rs:942-1026` | in every reachable warmup or round there are at least `min_clients` clients, in a round as many as the round recorded at its start, and the election of witnesses succeeds for every percentage up to 100 |
| `CoordinatorRuns.RingHoldsRecentRounds` | `shared/coordinator/src/coordinator.rs:753-800` | in every reachable state the ring head is the height modulo four, and each slot behind it holds the round that much lower, closed by a quorum, with its data ending where the next one starts |
| `CoordinatorRuns.RunKeepsConfig` | `shared/coordinator/src/coordinator.rs:443-661` | no event of any run changes the configuration, the sequence length or the batch schedule |
| `CoordinatorWarmup.NoPanicWithoutVerifiers` | `shared/coordinator/src/coordinator.rs:443-661` | from the initial state, without verifiers, no run of any length aborts anywhere, as long as its warmup messages carry an index below the minimum of clients |
| `CoordinatorWarmup.NoPanicWhenNobodyLeaves` | `shared/coordinator/src/coordinator.rs:443-661` | nor does any run in which nobody withdraws during a warmup and every warmup message carries the index of a client listed when it comes, such as its sender's own |
| `CoordinatorWarmup.WarmupMessageDecision` | `shared/coordinator/src/coordinator.rs:489-508` | a warmup message is accepted if and only if no recorded index names its sender and there is room, whatever index it carries itself; accepted, it is recorded, or starts training if and only if it completes the number that the coordinator waits for; rejected, it changes nothing |
| `CoordinatorWarmup.SecondMessageIsDuplicateIff` | `shared/coordinator/src/coordinator.rs:489-505` | after a message that was recorded a second one from the same sender is rejected as a duplicate if and only if the first carried the sender's own index |
| `CoordinatorWarmup.HonestSendersAreDistinct` | `shared/coordinator/src/coordinator.rs:489-505` | on any run in which nobody withdraws during a warmup and everybody sends their own index, the messages recorded in a warmup name clients with pairwise distinct ids |
| `CoordinatorWarmup.HonestTrainingHasReporters` | `shared/coordinator/src/coordinator.rs:503-505` | on such a run a message that starts training completes the number that the coordinator waits for with as many different clients |
| `CoordinatorWarmup.TrainingStartsIff` | `shared/coordinator/src/coordinator.rs:463-508` | whatever the event, it takes the coordinator from the warmup into training if and only if it is a tick after the warmup's time or an accepted message that completes the number waited for |
| `CoordinatorLiveness.PauseTakesHold` | `shared/coordinator/src/coordinator.rs:640-653` | once a pause is asked for in an active state, then over any run, until the pause arrives: the request stands, the coordinator stays active, at most one more round closes and at most two late ticks go by |
| `CoordinatorLiveness.PauseArrives` | `shared/coordinator/src/coordinator.rs:1051-1055` | when such a run comes to the pause everybody is withdrawn, the request is cleared and a cold start is marked |
| `CoordinatorLiveness.LateTicksFinish` | `shared/coordinator/src/coordinator.rs:970-1065` | a run without pauses, whose ticks in a warmup come after its time, is finished after at most 6 * (steps left) + 5 ticks that are later than every timeout and have enough clients pending, whatever messages, withdrawals and health checks come in between |
| `CoordinatorLiveness.TicksFinish` | `shared/coordinator/src/coordinator.rs:443-461` | such a run exists from every reachable state that no pause disturbs: ticks alone finish it within that bound |
| `CoordinatorExamples.WarmupCanAbort` | `shared/coordinator/src/coordinator.rs:489-494` | counterexample: in a run for two clients a message with an index that names nobody makes the other client's message abort the coordinator |
| `CoordinatorExamples.PairWarmsUp` | `shared/coordinator/src/coordinator.rs:655-661` | the two-client warmup of these runs is reached from an initial state |
| `CoordinatorExamples.HonestWarmupCanAbort` | `shared/coordinator/src/coordinator.rs:489-494` | counterexample: three clients who only send their own index, one of them withdraws, and a message aborts the coordinator |
| `CoordinatorExamples.OneClientCanReportForTwo` | `shared/coordinator/src/coordinator.rs:489-505` | counterexample: one of two clients sends the other's index, the other's own message is rejected as a duplicate, and a second message of the first starts training |
| `CoordinatorExamples.HistoricalIndicesCanShift` | `shared/coordinator/src/coordinator.rs:820-833` | counterexample: after a round that the first of three clients left, the lookup for that round answers with another client at every index |
| `CoordinatorExamples.RejectedPauseCanWithdraw` | `shared/coordinator/src/coordinator.rs:630-653` | counterexample: after one client of two has left, a pause is rejected and the other client is withdrawn all the same |
| `CoordinatorExamples.HeightOneFindsUnusedSlot` | `shared/coordinator/src/coordinator.rs:788-800` | counterexample: a run to height one, for every hash, where the lookup two rounds back finds a slot that was never used |
| `CoordinatorExamples.HealthCheckCanAbort` | `shared/coordinator/src/coordinator.rs:681-686` | counterexample: a run to height two, for every hash, where a health check with the only client's own proof aborts |
| `CoordinatorInvariant.StartRoundTrainKeepsRing` | `shared/coordinator/src/coordinator.rs:1082-1108` | starting a round puts it at the head of the ring, moves each of the three rounds before it back by one slot unchanged, and keeps them linked; the first round of an epoch replaces only the head |
| `CoordinatorInvariant.PurgeSplits` | `shared/coordinator/src/coordinator.rs:1131-1146` | purging splits the client list: the ids that stay and the ids that leave are together exactly those before, only healthy clients stay, and whoever leaves is stamped with the height |
| `CoordinatorInvariant.PurgeCannotOverflow` | `shared/coordinator/src/coordinator.rs:1131-1146` | the push onto the exited list cannot fail while listed and exited clients fit the limit together, and the purge keeps their number |
| `CoordinatorInvariant.WithdrawFromSucceedsIff` | `shared/coordinator/src/coordinator.rs:618-638` | withdrawing everybody succeeds if and only if everybody is healthy, and then changes exactly every state |
| `CoordinatorSteps.PauseIsAtomicIff` | `shared/coordinator/src/coordinator.rs:640-653` | a pause between epochs is accepted if and only if every client is healthy; a rejected one leaves the state alone if and only if the first client is already unhealthy |
| `CoordinatorSteps.WarmupWitnessPanicsIff` | `shared/coordinator/src/coordinator.rs:463-508` | a warmup message aborts if and only if the scan for duplicates meets a stale index before the sender; otherwise the invariant is kept |
| `CoordinatorSteps.TickKeepsInv` | `shared/coordinator/src/coordinator.rs:443-461` | no tick in any reachable state aborts, and each keeps the invariant |
| `CoordinatorSteps.TickRoundWitnessKeepsInv` | `shared/coordinator/src/coordinator.rs:970-1026` | closing a round never aborts and never returns an error: the quorum of zero witnesses is not asked for, the withdrawal of everybody after a purge cannot fail |
| `CoordinatorSteps.TickCooldownKeepsInv` | `shared/coordinator/src/coordinator.rs:1028-1065` | a cooldown ends with a finished epoch exactly when it times out, without an abort or an error even when a pause withdraws everybody |
| `CoordinatorSteps.TickWarmupKeepsInv` | `shared/coordinator/src/coordinator.rs:942-958` | a warmup tick, timed out or not, with enough clients left or not, never aborts and keeps the invariant |
| `CoordinatorSteps.ClosingShape` | `shared/coordinator/src/coordinator.rs:970-1026` | a closing round raises the step by one, loses no client, keeps a last step once set, and enters the cooldown when it reaches it |
| `CoordinatorDecisions.ClosingDecision` | `shared/coordinator/src/coordinator.rs:970-1026` | a round that times out is followed by another if and only if it had a quorum of witnesses, enough healthy clients stay, steps are left, no pause is pending and the last step is not reached; otherwise by the cooldown. An epoch past its time has its last step set two steps ahead; the unhealthy clients leave, and everybody is withdrawn when nobody witnessed the round; a next round takes the given seed and no witnesses |
| `CoordinatorDecisions.AdmissionDecision` | `shared/coordinator/src/coordinator.rs:877-940` | a waiting coordinator opens an epoch if and only if enough clients are pending and the extra time is over; the epoch has the first of them in order and healthy, as many as fit, and starts at the current step and time with an empty ring and exited list; otherwise nothing changes |
| `CoordinatorDecisions.ApplyMoves` | `shared/coordinator/src/coordinator.rs:443-661` | no event of any kind takes the coordinator from a reachable state to a state that does not follow it |
| `CoordinatorDecisions.FinishedIsFinal` | `shared/coordinator/src/coordinator.rs:1114-1123` | a finished run stays finished, at exactly the configured number of steps, over any further events |
| `CoordinatorDecisions.ApplyRecords` | `shared/coordinator/src/coordinator.rs:1125-1129` | for every event: the starting time of a state is the time of the event that entered it, the epoch counter counts cooldowns that ended, and cold starts are marked by pauses and unmarked only by other ends of a cooldown |
| `CoordinatorTiming.TickIsOnTime` | `shared/coordinator/src/coordinator.rs:877-1079` | in every reachable state a tick goes on to what follows the state if and only if it comes at another second than the state was entered and no sooner than that plus the state's own configured time, and, when waiting, enough clients are pending, counted modulo 65536; the one other way out is a warmup with too few healthy clients going back to waiting |
| `CoordinatorTiming.StatesLastTheirTime` | `shared/coordinator/src/coordinator.rs:1067-1070` | over any run: when a tick ends a state for what follows it, the state has lasted its configured time since the event that entered it; so training ended by a tick lasted the longest time it may |
| `CoordinatorTiming.ApplyKeepsEpochTime` | `shared/coordinator/src/coordinator.rs:994-1003` | no event within an epoch moves the time at which it opened; and none sets its last step but a tick that closes a witnessed round after that time plus the configured one, to three steps past the round's own |
| `CoordinatorTiming.EpochsLastTheirTime` | `shared/coordinator/src/coordinator.rs:1072-1075` | over any run within an epoch: a last step is set only if some tick came the epoch's configured time after it opened |
| `CoordinatorReplies.WitnessReply` | `shared/coordinator/src/coordinator.rs:510-558` | the reply to a witness message in every reachable state, with the first of the reasons to turn it away |
| `CoordinatorReplies.WarmupReply` | `shared/coordinator/src/coordinator.rs:463-508` | the reply to a warmup message that does not abort, in every reachable state; one that comes in training is accepted without effect |
| `CoordinatorReplies.HealthCheckReply` | `shared/coordinator/src/coordinator.rs:560-593` | where the previous round has a selection, a health check is turned away for its first check out of order: for its proof, or because the client is healthy |
| `CoordinatorReplies.PauseReply` | `shared/coordinator/src/coordinator.rs:640-653` | a pause is put off in a round or cooldown, taken at once while waiting or warming up if everybody is healthy, and turned away otherwise |
| `CoordinatorExits.ApplyStamps` | `shared/coordinator/src/coordinator.rs:1131-1146` | whoever leaves while no epoch opens is put behind those who left before, stamped with the height of the current round |
| `CoordinatorExits.ReachableExitsAreInOrder` | `shared/coordinator/src/coordinator.rs:1131-1146` | in every reachable state the exited clients stand in the order of the heights at which they left, none above the current one |
| `CoordinatorRuns.RecordedWitnessesAreElected` | `shared/coordinator/src/coordinator.rs:510-558` | in every reachable round the recorded witnesses are at distinct indices, all elected, at most as many as were elected, and as many only when everybody elected has reported; while training goes on somebody elected has not |
| `CoordinatorWitnesses.AddWitnessMeaning` | `shared/coordinator/src/coordinator.rs:510-558` | in a round a message is accepted if and only if it carries its sender's own proof of election and is the sender's first; any other is rejected with nothing changed and never because the list is full |
| `CoordinatorWitnesses.EarlySwitchIffAllReported` | `shared/coordinator/src/coordinator.rs:510-558` | an accepted message ends the training phase early if and only if the reporters are now exactly the elected witnesses, for a configured number of witnesses as for none |
| `CoordinatorWitnesses.TargetIsElectedCount` | `shared/coordinator/src/coordinator.rs:520-524` | the number of messages that ends a round early is the number of elected clients |
| `CoordinatorElections.SelectionIsRemembered` | `shared/coordinator/src/committee_selection.rs:122-142` | over any run within an epoch, one and two rounds after a round the selection found at that distance is the very one that was in force while it ran |
| `CoordinatorElections.ElectedInRound` | `shared/coordinator/src/committee_selection.rs:144-152` | in every reachable round an index is elected if and only if the trace of the shuffle from it, under the eight bytes of the recorded seed and the word "witness", ends among the first positions, as many as are configured or thirty-two |
| `CoordinatorWitnesses.ElectionSucceedsInRounds` | `shared/coordinator/src/committee_selection.rs:122-142` | in a reachable round the election fails if and only if the verification percentage is above 100 |
| `CoordinatorWitnesses.AlreadyReportedMeaning` | `shared/coordinator/src/coordinator.rs:543-548` | the scan for duplicates indexes out of bounds if and only if it meets a stale index before the sender; otherwise it finds the sender exactly when one of the witnesses is that client |
| `CoordinatorHealth.EarlierRounds` | `shared/coordinator/src/coordinator.rs:773-800` | the previous round is absent exactly at height zero and otherwise one lower; the one before it is right from height two on, absent at height zero, and at height one a slot that was never used |
| `CoordinatorHealth.IsHealthyMeaning` | `shared/coordinator/src/coordinator.rs:663-716` | a check errs if and only if it does not verify, aborts if and only if it verifies for somebody other than a trainer, and otherwise compares the score with the quorum of the previous round |
| `CoordinatorHealth.HealthCheckMeaning` | `shared/coordinator/src/coordinator.rs:560-593` | aborts if and only if it asks after a verifier; otherwise all or nothing: accepted, it drops precisely the named clients that were healthy and returns their number; rejected, it changes nothing |
| `CoordinatorHealth.DropNamedMeaning` | `shared/coordinator/src/coordinator.rs:582-590` | dropping changes exactly the healthy clients that are named, once each, and the count is the number changed |
| `CoordinatorHealth.NoVerifiersNoPanic` | `shared/coordinator/src/coordinator.rs:682-686` | with a verification percentage of zero no health check aborts |
| `CoordinatorHealth.HealthScoreCounts` | `shared/coordinator/src/coordinator.rs:718-729` | the score is the number of witnesses whose filter contains the hashed id |
| `CoordinatorHealth.VouchedTrainerIsSafe` | `shared/coordinator/src/coordinator.rs:560-593` | a client whose hashed id a quorum of the previous round's witnesses added to their filters, in any order and among anything else, comes out of every health check unchanged |
| `CoordinatorHealth.UnseenTrainersAreDropped` | `shared/coordinator/src/coordinator.rs:560-593` | checks with valid proofs of trainers are accepted, and drop all of them that are healthy, when fewer than a quorum of witnesses are left after those whose filters, filled from empty, a key tells apart from the client's hashed id |
| `CoordinatorDrops.DroppedIffCondemned` | `shared/coordinator/src/coordinator.rs:443-661` | over any run, a client that is not dropped at its start is dropped at its end if and only if, at some time since the last admission, an accepted health check proved and named them while they were listed and healthy and fewer of the previous round's witnesses had them in their filters than the quorum |
| `CoordinatorDrops.ApplyDrops` | `shared/coordinator/src/coordinator.rs:443-661` | no event but an accepted health check drops anybody, it drops exactly those it condemns, and only the admission of a new epoch forgets who was dropped; clients that leave the list keep their state |
| `CoordinatorEpochs.ClientsAreConserved` | `shared/coordinator/src/coordinator.rs:926-934` | from the admission of an epoch to the next one, over any run, the listed and the exited ids together are exactly the multiset admitted |
| `CoordinatorEpochs.IdsStayDistinct` | `shared/coordinator/src/coordinator.rs:926-934` | if the pending ids are distinct, so are the listed ones at any time in the epoch that admits them |
| `CoordinatorEpochs.RoundsStayFindable` | `shared/coordinator/src/coordinator.rs:820-839` | any time later in the epoch a round is still at its age in the ring with its data, seed and size, and the historical lookup for it returns exactly the ids that were live in it, until the ring has moved past it |
| `CoordinatorEpochs.HistoricalIsPermutation` | `shared/coordinator/src/coordinator.rs:820-839` | the historical lookup lists who is still there followed by who has left since, a permutation of the earlier list |
| `CoordinatorEpochs.HistoricalAgreesIff` | `shared/coordinator/src/coordinator.rs:820-833` | index by index the lookup still names the same clients if and only if those who stayed followed by those who left stand in the old order |
| `CoordinatorEpochs.PurgeKeepsIndicesIff` | `shared/coordinator/src/coordinator.rs:820-833` | after one purge of a list with distinct ids that is so if and only if nobody healthy stood behind somebody who left |
| `CoordinatorEpochs.RunKeepsIndicesIff` | `shared/coordinator/src/coordinator.rs:820-833` | over any run within an epoch, from a list with distinct ids, the lookup still names the same client at every index if and only if whoever has left since stood behind everybody who stayed, and they left in the order in which they stood |
| `CoordinatorEpochs.ApplyFollows` | `shared/coordinator/src/coordinator.rs:443-661` | every event of a started epoch conserves clients and moves the ring on by at most one round |
| `CoordinatorEpochs.LastStepEndsEpoch` | `shared/coordinator/src/coordinator.rs:989-1006` | once the last step is set at most one more round closes without entering the cooldown, so the second to close enters it |
| `Coordinators.Coordinator.constructor` | `shared/coordinator/src/coordinator.rs:406-430` | a new coordinator is in the initial state, so its runs are those of the theorems |
| `Coordinators.Coordinator.DoTick` | `shared/coordinator/src/coordinator.rs:443-461` | the in-place tick takes exactly the transition, from every reachable state, without any abort |
| `Coordinators.Coordinator.DoWarmupWitness` | `shared/coordinator/src/coordinator.rs:463-508` | the in-place warmup message takes exactly the transition; it requires only that the transition does not abort |
| `Coordinators.Coordinator.DoWitness` | `shared/coordinator/src/coordinator.rs:510-558` | the in-place witness message takes exactly the transition, without any abort |
| `Coordinators.Coordinator.DoHealthCheck` | `shared/coordinator/src/coordinator.rs:560-593` | both loops of the in-place health check take exactly the transition; it requires only that no verifier is asked after |
| `Coordinators.Coordinator.DoWithdraw` | `shared/coordinator/src/coordinator.rs:618-628` | the in-place withdrawal takes exactly the transition |
| `Coordinators.Coordinator.DoWithdrawAll` | `shared/coordinator/src/coordinator.rs:630-638` | the in-place loop withdraws in order and stops at the first unhealthy client, as the transition does |
| `Coordinators.Coordinator.DoPause` | `shared/coordinator/src/coordinator.rs:640-653` | the in-place pause takes exactly the transition |
| `Coordinators.Coordinator.DoResume` | `shared/coordinator/src/coordinator.rs:655-661` | the in-place resume takes exactly the transition |
| `Coordinators.Coordinator.MoveToExited` | `shared/coordinator/src/coordinator.rs:1131-1146` | one pass moves every unhealthy client to the exited list in order, and the list cannot overflow |
| `Coordinators.Coordinator.OpenEpoch` | `shared/coordinator/src/coordinator.rs:915-937` | the epoch state is zeroed and refilled with as many pending clients as fit |
| `Coordinators.Coordinator.BeginRoundTrain` | `shared/coordinator/src/coordinator.rs:1082-1108` | the round is written into its slot of the ring and the head moved, as the transition says |
| `Coordinators.Coordinator.WitnessQuorum` | `shared/coordinator/src/coordinator.rs:692-704` | the quorum is computed, never for zero witnesses: all of one or two, two of three, and from four on two thirds rounded down |
| `CoordinatorQuorum.QuorumIsTwoThirds` | `shared/coordinator/src/coordinator.rs:692-704` | there is a quorum of any number of witnesses but zero: all of one or two, two of three, and from four on two thirds, rounded down |
| `CoordinatorQuorum.QuorumIsMajorityIff` | `shared/coordinator/src/coordinator.rs:692-704` | it is more than half of the witnesses if and only if they are not four |
| `CoordinatorQuorum.WinnerIsUnique` | `shared/coordinator/src/coordinator.rs:731-751` | at that quorum at most one commitment wins, for every number of witnesses other than four |
| `CoordinatorQuorum.FourCanTie` | `shared/coordinator/src/coordinator.rs:731-751` | of four witnesses, two for each of two commitments make a quorum for both |
| `Coordinators.Coordinator.HistoricalClient` | `shared/coordinator/src/coordinator.rs:820-833` | the lookup from the end of the exited list agrees with the specification at every index |
| `Protocol.BatchSizeInRange` | `shared/coordinator/src/coordinator.rs:1183-1194` | for every checked configuration and any number of tokens the batch lies between the two configured sizes and is not empty |
| `Protocol.BatchSizeMonotone` | `shared/coordinator/src/coordinator.rs:1183-1194` | batches never shrink as more tokens are processed |
| `Protocol.BatchSizeFollowsLine` | `shared/coordinator/src/coordinator.rs:1183-1194` | before the end of the warmup the batch is the whole number nearest to the straight line between the two configured sizes, the larger one at a tie; from then on it is the final size |
| `Protocol.RoundedQuotientIsNearest` | `shared/coordinator/src/coordinator.rs:1187-1192` | the rounding used for the interpolation errs by at most a half |
| `SwapOrNot.ComputeShuffledIndex` | `shared/core/src/swap_or_not.rs:5-30` | the ninety-round loop computes the shuffle that the bijection theorem is about |
| `SwapOrNot.FlipIsReflection` | `shared/core/src/swap_or_not.rs:16` | the flip is the reflection of the index around the pivot |
| `SwapOrNot.SwapRoundIsInvolution` | `shared/core/src/swap_or_not.rs:11-27` | every round undoes itself, whatever the hash: both members of a pair read the same bit |
| `SwapOrNot.UnshuffleInvertsShuffle` | `shared/core/src/swap_or_not.rs:11-27` | running the rounds backwards undoes them |
| `SwapOrNot.ShuffledIndexIsBijection` | `shared/core/src/swap_or_not.rs:5-30` | for every seed, hash and count the shuffle is a bijection on the indices below the count |
| `SwapOrNot.ShuffledIndexEndsTrace` | `shared/core/src/swap_or_not.rs:5-30` | the shuffle sends an index to the end of a trace of ninety-one: in each round it stays or goes to the index that adds up with it to the pivot, and goes if and only if the bit for the larger of the two is set in the digest of the seed, the round and the block's four bytes; every such trace from the index ends there |
| `SwapOrNot.LargerOfPairDecides` | `shared/core/src/swap_or_not.rs:15-26` | an instance in which the bits of a pair differ and that of the larger decides |
| `SwapOrNot.LandingSize` | `shared/core/src/swap_or_not.rs:5-30` | exactly as many indices land in a window as it has positions |
| `Committees.SplitIsExact` | `shared/coordinator/src/committee_selection.rs:85-120` | over all indices an accepted selection has exactly the requested tie breakers and verifiers, the rest trainers, and exactly `min(total, witness_nodes or 32)` witnesses |
| `Committees.IssuedFromScratch` | `shared/coordinator/src/committee_selection.rs:85-179` | what an accepted selection issues to a node, from the requested numbers, the eight little-endian bytes of the seed, the words "committee" and "witness" and the traces of the shuffle: tie breakers first, then verifiers, then trainers; and the first positions of the other shuffle are the witnesses |
| `Committees.VerifyCommitteeIffIssued` | `shared/coordinator/src/committee_selection.rs:203-206` | a committee proof verifies if and only if the selection would issue it for that index |
| `Committees.VerifyWitnessIffIssued` | `shared/coordinator/src/committee_selection.rs:208-212` | a witness proof verifies if and only if the selection would issue it for that index |
| `DataSelection.CursorAgreesOverRuns` | `shared/coordinator/src/data_selection.rs:110-132` | over every run from the initial state, across epochs, failed warmups, pauses and resumes, the data cursor kept step by step equals the one recomputed from scratch for the current step |
| `DataSelection.StepsUseDisjointData` | `shared/coordinator/src/coordinator.rs:1082-1108` | two rounds of one run with different steps use disjoint non-empty data, the earlier step's first, and consecutive steps leave no gap |
| `DataSelection.GetDataIndexForStep` | `shared/coordinator/src/data_selection.rs:110-132` | the loop sums the batches of all steps before the target, and answers zero outside the run |
| `DataSelection.BatchesPartition` | `shared/coordinator/src/data_selection.rs:62-92` | a round's batches tile its data end to end, one for every trainer while the data lasts, none empty, with sizes that differ by at most one |
| `DataSelection.LargerBatchesFirst` | `shared/coordinator/src/data_selection.rs:62-92` | no batch is larger than one before it, which with the partition fixes every size |
| `DataSelection.LastBatchGoesToDrawn` | `shared/coordinator/src/data_selection.rs:35-57` | with a batch for everybody, the last batch goes to the trainer at the first draw from the round's seed, modulo their number |
| `DataSelection.RoundSizeIsConfigured` | `shared/coordinator/src/coordinator.rs:1082-1108` | every reachable round has as much data as is configured for where it starts |
| `DataSelection.ConfiguredBatchOnLine` | `shared/coordinator/src/coordinator.rs:841-875` | the configured amount is read off at the number of tokens before it, one sequence for every data index |
| `DataSelection.SharesAddUp` | `shared/coordinator/src/data_selection.rs:75-78` | the shares of all trainers add up to the batch, and so do the non-empty ones alone |
| `DataSelection.GetBatchIdsForRound` | `shared/coordinator/src/data_selection.rs:62-92` | the loop with its early exit lists exactly the non-empty batches in order |
| `DataSelection.AssignDataForState` | `shared/coordinator/src/data_selection.rs:7-60` | the map's keys in order are the round's batches for the number of trainers, and the i-th goes to the i-th trainer of the shuffled order |
| `DataSelection.EverybodyTrains` | `shared/coordinator/src/data_selection.rs:14-33` | without tie breakers and verifiers every client is a trainer, in client order |
| `DataSelection.TrainersMatchSelection` | `shared/coordinator/src/committee_selection.rs:233-235` | the trainers found by asking every client are as many as the selection counts, so both ways of listing batches agree |
| `DeterministicShuffle.Shuffle` | `shared/core/src/deterministic_shuffle.rs:6-13` | the in-place loop computes the shuffle specified by the generator |
| `DeterministicShuffle.ShuffledIsPermutation` | `shared/core/src/deterministic_shuffle.rs:6-13` | for every seed the shuffle only reorders |
| `DeterministicShuffle.LastTakesDrawn` | `shared/core/src/deterministic_shuffle.rs:6-13` | the last position takes the item at the first draw of the generator, written out, modulo the number of items; the positions before it are the shuffle, from the state after that draw, of the items left, with the last one in the place of the one taken |
| `DeterministicShuffle.OwnDrawsKeepOrder` | `shared/core/src/deterministic_shuffle.rs:6-13` | where the draw for each position is that position modulo one more than it, nothing moves |
| `DeterministicShuffle.Lcg.NextRange` | `shared/core/src/lcg.rs:15-22` | one generator step in wrapping arithmetic, then the remainder |
| `DataSelection.NodeListsPartition` | `shared/coordinator/src/data_selection.rs:94-108` | with distinct ids of the trainers, shuffled by any seed, each node's list is exactly the batch at its position of the order, or empty |
| `DataSelection.RoundIsAssignable` | `shared/coordinator/src/data_selection.rs:8-33` | in every reachable round without verifiers the election succeeds, no client has a duty that the assignment does not cover, and everybody trains |
| `DataSelection.RoundIsPartitioned` | `shared/coordinator/src/data_selection.rs:7-108` | in every such round with distinct ids the assignment's keys are the round's batches for that many clients, every index of the round's data is in the list of exactly one client, and any other index in nobody's |
| `DataSelection.AdmittedClientsShareRounds` | `shared/coordinator/src/data_selection.rs:7-108` | from the admission of an epoch with distinct pending ids, over any run within it: in every round without verifiers each index of the data belongs to exactly one listed client |
| `Blooms.NoFalseNegatives` | `shared/core/src/bloom.rs:295-312` | an item added at any point, before or after any others and to any filter, is contained for ever after |
| `Blooms.ContainsIffCovered` | `shared/core/src/bloom.rs:283-312` | a filter filled from empty contains an item if and only if under every key its hash and that of some added item under some key are the same modulo the number of bits |
| `Blooms.OtherItemIsDenied` | `shared/core/src/bloom.rs:283-312` | an item that the hash sends to another bit than all that was added is denied |
| `Blooms.AddAllBits` | `shared/core/src/bloom.rs:295-302` | after any adds a bit is set if and only if it was set before or some added item hashes to it under some key |
| `Blooms.BloomFilter.AddItem` | `shared/core/src/bloom.rs:295-302` | the loop sets in place exactly the bits that the item hashes to under the keys |
| `Blooms.BloomFilter.Query` | `shared/core/src/bloom.rs:304-312` | the loop with its early exit answers whether all the bits that the item hashes to are set |
| `Blooms.BloomFilter.constructor` | `shared/core/src/bloom.rs:238-247` | a new filter is empty, and has all its words' bits whatever `num_bits` says |
| `Blooms.BloomFilter.Clear` | `shared/core/src/bloom.rs:289-293` | clearing empties the filter and keeps its keys |
| `FixedVecs.FixedVec.Push` | `shared/core/src/fixed_vec.rs:40-48` | appends, or fails at capacity and changes nothing |
| `FixedVecs.FixedVec.Pop` | `shared/core/src/fixed_vec.rs:50-57` | removes and returns the last element, if any |
| `FixedVecs.FixedVec.Extend` | `shared/core/src/fixed_vec.rs:90-95` | appends in order and, when they do not all fit, keeps the ones before the failure |
| `FixedVecs.FixedVec.Remove` | `shared/core/src/fixed_vec.rs:113-128` | the shifting loop removes exactly one element and keeps the order |
| `FixedVecs.FixedVec.Insert` | `shared/core/src/fixed_vec.rs:130-145` | the shifting loop inserts exactly one element and keeps the order, or fails and changes nothing |
| `FixedVecs.FixedVec.Retain` | `shared/core/src/fixed_vec.rs:147-169` | the two-pointer loop keeps exactly the elements that pass, in order |
| `FixedVecs.FilterKeepsPassing` | `shared/core/src/fixed_vec.rs:147-169` | what is kept has every passing element as often as before and nothing else |
| `ConsensusCommitment.SelectConsensusCommitment` | `shared/coordinator/src/coordinator.rs:731-751` | the winner has the highest score, meets the quorum and is the last such; there is none if and only if nobody meets it |
| `ConsensusCommitment.Tally` | `shared/coordinator/src/coordinator.rs:736-744` | the nested loops with their break give every witness one vote, at the first commitment it saw |
| `ConsensusCommitment.SawIffBroadcast` | `shared/coordinator/src/coordinator.rs:738-741` | a witness saw a commitment if and only if, under every key, the items its broadcast filter was filled with cover the commitment's data hash |
| `ConsensusCommitment.TotalScoreBound` | `shared/coordinator/src/coordinator.rs:736-744` | all scores together never exceed the number of witnesses |
| `ConsensusCommitment.QuorumIsUnique` | `shared/coordinator/src/coordinator.rs:745-750` | when twice the quorum exceeds the number of witnesses, at most one commitment meets it |
| `Intervals.OverlapIffSharedPoint` | `shared/core/src/interval_tree.rs:20-26` | two intervals overlap if and only if they have a point in common |
| `Intervals.IntervalTree.Insert` | `shared/core/src/interval_tree.rs:107-120` | succeeds if and only if the new interval overlaps no stored one, although only two neighbours are looked at; adds exactly it, or changes nothing |
| `Intervals.IntervalTree.Get` | `shared/core/src/interval_tree.rs:122-128` | agrees with a linear scan: an answer if and only if some stored interval contains the point, and then its value |
| `Intervals.NeighboursDecide` | `shared/core/src/interval_tree.rs:107-120` | if neither neighbour is in the way, no stored interval is |
| `Intervals.IntervalTree.Remove` | `shared/core/src/interval_tree.rs:130-135` | removes by the start alone and answers only when the end agrees too, keeping the tree valid |
| `Intervals.RemovalLosesEntryIff` | `shared/core/src/interval_tree.rs:130-135` | a removal answers nothing and yet deletes an entry if and only if one with the same start and another end is stored; otherwise it deletes exactly what it answers with |
| `Intervals.RemovalCanLoseEntry` | `shared/core/src/interval_tree.rs:130-135` | for instance removing [0, 5] where [0, 9] is stored |
| `BatchIds.PrintedNeverParses` | `shared/core/src/batch_id.rs:9-39` | no batch id, once printed, can be parsed again: a single point fails for its missing bracket, any other for the space before its end |
| `BatchIds.ReadsBackIffNoGap` | `shared/core/src/batch_id.rs:21-39` | a bracketed id is read back if and only if nothing stands between the comma and the end |
| `BatchIds.DecimalRoundTrip` | `shared/core/src/batch_id.rs:31-35` | the value of a printed number is the number |
| `BatchIds.ParseMisses` | `shared/core/src/batch_id.rs:24-35` | the first mark that is missing is what the error names, and a comma before the bracket aborts |
| `BatchIds.PrintedRangeAndPoint` | `shared/core/src/batch_id.rs:9-13` | the range from 3 to 17 prints as B[3, 17] and the point 4 as B4 |
| `MerkleTrees.NewTree` | `shared/core/src/merkle_tree.rs:243-281` | the level-by-level loops build the flat vector of the recursive tree |
| `MerkleTrees.FindPath` | `shared/core/src/merkle_tree.rs:287-322` | the climb through the flat vector reads exactly the recursive path, and nothing past the last leaf; no entry is created without exactly one sibling |
| `MerkleTrees.FlatEndsInRoot` | `shared/core/src/merkle_tree.rs:283-285` | the last node of the flat vector is the recursive root |
| `MerkleTrees.RootOfThree` | `shared/core/src/merkle_tree.rs:17-33` | the root of three items written out: a zero byte before leaves, a one before nodes, the odd leaf paired with itself |
| `MerkleTrees.NodeCountBound` | `shared/core/src/merkle_tree.rs:220-241` | the vector has at most 2n + floor(log2 n) + 1 nodes, the capacity reserved for it |
| `MerkleTrees.PathsHaveOneSibling` | `shared/core/src/merkle_tree.rs:113-122` | every entry of a found path has exactly one sibling |
| `MerkleTrees.FoundPathsVerify` | `shared/core/src/merkle_tree.rs:189-207` | the path found for any item verifies that item and, with two leaves or more, ends in the tree's root |
| `MerkleTrees.OneCandidatePerProof` | `shared/core/src/merkle_tree.rs:189-198` | a proof that is not empty verifies one candidate only, unless two given inner nodes collide |
| `MerkleTrees.VerifiedItemIsInTree` | `shared/core/src/merkle_tree.rs:189-207` | any proof of any length, read from the tree or made up, that verifies an item and claims the root of the tree of some items shows that the item is one of them, unless a string hashed while verifying the proof and a different string hashed while building the tree have the same hash; both are returned |
| `MerkleTrees.OwnedProofCanFail` | `shared/core/src/merkle_tree.rs:162-172` | counterexample: the proof of the first of any two different items verifies and its owned form does not, unless the two leaves collide or the proof has an inner node whose hash is the same with its halves swapped |
| `MerkleTrees.OwnedProofsVerifyIffTwins` | `shared/core/src/merkle_tree.rs:162-172` | a valid proof stays valid in its owned form if and only if every sibling on the way equals the node beside it, unless the proof has an inner node whose hash is the same with its halves swapped |
| `DctDivisors.GetPrimeDivisors` | `shared/modeling/src/distro.rs:59-86` | of a positive number the 6k±1 wheel returns an ascending list of primes whose product it is; of a negative one exactly its twos and threes; of zero nothing |
| `DctDivisors.GetDivisors` | `shared/modeling/src/distro.rs:88-118` | the nested loops return exactly the positive divisors in strictly ascending order |
| `DctDivisors.GetSmallerSplit` | `shared/modeling/src/distro.rs:120-134` | for a bound of at least one, the largest divisor within the bound |
| `DctDivisors.MultiplyOut` | `shared/modeling/src/distro.rs:99-113` | multiplying out ascending prime factors lists every divisor of their product once |
| `DctDivisors.EuclidsLemma` | `shared/modeling/src/distro.rs:99-113` | a prime that divides a product divides one of its factors, the reason nothing is missing from the list |
| `DctDivisors.MoreDivisors` | `shared/modeling/src/distro.rs:107-109` | one more factor of a prime adds exactly the slice times the prime's full power, with no duplicates and nothing missing |
| `DctDivisors.RestIsPrime` | `shared/modeling/src/distro.rs:71-84` | what is left when the wheel stops is prime |
| `CancellableBarriers.BarrierIsSafe` | `shared/core/src/cancellable_barrier.rs:45-86` | over all interleavings, with spurious wakeups and cancellations: a wait returns success only from a generation that `total` threads entered, at most `total` times each; the count stays below the total; whoever sleeps waits for the current generation, uncancelled |
| `CancellableBarriers.RunKeepsInv` | `shared/core/src/cancellable_barrier.rs:45-86` | every interleaving keeps the barrier's invariant, in which everybody who entered a generation is inside or has returned once |
| `CancellableBarriers.ResetIsSafeIff` | `shared/core/src/cancellable_barrier.rs:81-86` | everything that can happen after a reset keeps the promise, that a wait returns success only from a generation that filled up, if and only if nobody is inside `wait` for the generation it ends |
| `CancellableBarriers.ResetBreaksPromise` | `shared/core/src/cancellable_barrier.rs:81-86` | whoever is inside `wait` for that generation can return success from it at once, though fewer threads entered it than the barrier is for |
| `CancellableBarriers.ResetCanBreakPromise` | `shared/core/src/cancellable_barrier.rs:81-86` | counterexample: a barrier for two, one thread inside, a reset, and that thread returns success alone |
| `CancellableBarriers.CancellableBarrier.EnterWait` | `shared/core/src/cancellable_barrier.rs:46-70` | the locked region up to the sleep takes the step of the protocol, and wakes the others exactly when it completes the generation |
| `CancellableBarriers.CancellableBarrier.AfterWakeup` | `shared/core/src/cancellable_barrier.rs:58-65` | the locked region after a wakeup decides as the protocol does |
| `CancellableBarriers.CancellableBarrier.Cancel` | `shared/core/src/cancellable_barrier.rs:75-79` | cancelling sets the flag and wakes everybody |
| `CancellableBarriers.CancellableBarrier.Reset` | `shared/core/src/cancellable_barrier.rs:81-86` | a reset opens a new generation and wakes nobody |
| `CheckpointPacking.PackTensors` | `shared/modeling/src/safetensor_utils.rs:147-170` | fails exactly for want of tensors or at the first, in the order of names, that is too big; otherwise the parts concatenated are the tensors in the order of names, each size is recorded exactly and within the cap |
| `CheckpointPacking.SortByNameMeaning` | `shared/modeling/src/safetensor_utils.rs:155` | the order of names has the same tensors, sorted |
| `CheckpointPacking.NamesByFirstDifference` | `shared/modeling/src/safetensor_utils.rs:158` | names are compared where they first differ, and a prefix comes first |
| `CheckpointPacking.NeighboursExceedCap` | `shared/modeling/src/safetensor_utils.rs:161-166` | any two neighbouring parts together exceed the cap |
| `CheckpointPacking.PartsAreHalfFull` | `shared/modeling/src/safetensor_utils.rs:156-170` | with k parts, two or more, the total exceeds the cap k / 2 times over |
| `CheckpointPacking.RecordedSizesAddUp` | `shared/modeling/src/safetensor_utils.rs:167-169` | the recorded sizes add up to the bytes of all tensors |
| `CheckpointPacking.GreedyIsOptimal` | `shared/modeling/src/safetensor_utils.rs:156-170` | no packing that keeps the order and respects the cap has fewer parts |

## Left out

- CoordinatorModel: the checkpoint metadata of the model and the `checkpoint` message are not part of the
  state; no transition of the run depends on them. The book says a cooldown switches the checkpoint when it
  begins, the code when it ends; neither is modelled.
- CoordinatorModel: the configuration is fixed for a run, and checked; updating it in mid-run is not modelled.
- CoordinatorModel: integers are unbounded. The one conversion that can lose bits, the number of pending
  clients as sixteen bits, is modelled; overflow of `data_index * sequence_length` in 64 bits and of the epoch
  counter in sixteen is not.
- CoordinatorModel: pending clients arrive as a list; whether their ids are distinct is not assumed.
- CoordinatorModel.Quorum: two thirds in floating point is modelled as the integer `2n / 3` rounded down.
- Protocol.BatchSizeInRange: the interpolation is over exact fractions, rounded half up, where the source rounds in
  floating point; the theorems about the cursor hold for whatever schedule the function computes.
- Coordinators.Coordinator: its client lists are sequences that the methods reassign; the array-backed list is
  proved separately, as `FixedVecs`. The ring of rounds is an array. Sharing of references is not modelled.
- Coordinators.Coordinator.DoWarmupWitness: requires that the transition does not abort, and
  `WarmupWitnessPanicsIff` says exactly when it does.
- Coordinators.Coordinator.DoHealthCheck: requires that the transition does not abort, since the source has no
  verdict for verifiers and tie breakers; `HealthCheckMeaning` says exactly when it does.
- CoordinatorLiveness: that late ticks come at all is not modelled; time enters as the argument of each event.
- DataSelection.AssignDataForState: requires, as the source asserts, that nobody is given a duty of verifiers or tie
  breakers that it does not cover.
- DataSelection: the ordered map is a sequence kept in the order of its keys.
- Intervals.IntervalTree: the ordered map underneath is a sequence kept in the order of its keys, over integers.
- SwapOrNot.ComputeShuffledIndex: counts above 2^63, where the sum of pivot and count would wrap, are treated as if
  arithmetic were unbounded.
- DctDivisors.GetPrimeDivisors: `i * i` does not wrap near the largest 64-bit integer.
- DctDivisors.SortUnstable: stands for the library's sort, with its contract.
- CancellableBarriers: the lock and the condition variable are taken at their word: locked regions are atomic, and a
  sleeper wakes when notified or for no reason at all. That a woken thread is eventually scheduled is not modelled.
- CheckpointPacking.PackTensors: the cap is a parameter, five gibibytes in the source; a tensor is its name
  and its size; the files written from the parts are not modelled; and names are compared by their characters.
- BatchIds.PrintedNeverParses: offsets into the text are counted in characters, where the source counts bytes.
- Blooms: `random` chooses keys and a size by floating-point formulas and a random source; any keys are covered.
- MerkleTrees: owned proofs are modelled where they verify, not their serialisation.
- Networking, storage, the client's own loop, tensor arithmetic, the terminal interface and the on-chain wrapper are
  left out: they are input and output, or floating-point kernels.
- Small containers such as the bounded queue and the running average are left out as too easy.
