/**
The coordinator's run protocol as transitions on a state value. A transition either panics, at
a named site, or runs to a new state and a reply; a rejected request is a reply, and whatever it
changed before it was rejected stays changed.
*/
module CoordinatorModel {
  import opened Wrappers
  import opened Bytes
  import opened Blooms
  import opened Protocol
  import opened Committees

  datatype RunState =
    | Uninitialized
    | WaitingForMembers
    | Warmup
    | RoundTrain
    | RoundWitness
    | Cooldown
    | Finished
    | Paused

  type CheckedConfig = c: Config | c.Check()
    witness Config(0, 1, 1, 1, 0, 0, 1, 1, 1, 0, 1, 1, 0, 1)

  /** The ring of the most recent rounds. */
  type Ring = r: seq<Round> | |r| == NUM_STORED_ROUNDS witness [ZERO_ROUND, ZERO_ROUND, ZERO_ROUND, ZERO_ROUND]

  const ZERO_RING: Ring := [ZERO_ROUND, ZERO_ROUND, ZERO_ROUND, ZERO_ROUND]

  datatype Progress = Progress(epoch: nat, step: nat, epochStartDataIndex: nat)

  datatype EpochState = EpochState(
    rounds: Ring,
    clients: seq<Client>,
    exitedClients: seq<Client>,
    roundsHead: nat,
    startStep: nat,
    lastStep: nat,
    startTimestamp: nat,
    firstRound: bool,
    coldStartEpoch: bool)

  datatype State = State(
    runState: RunState,
    config: CheckedConfig,
    sequenceLength: nat,
    batchRule: nat -> nat,
    progress: Progress,
    epoch: EpochState,
    runStateStart: nat,
    pendingPause: bool)
  {
    predicate IsHalted() {
      runState == Uninitialized || runState == Finished || runState == Paused
    }

    predicate IsActive() {
      !IsHalted() && runState != WaitingForMembers && runState != Warmup
    }

    /** The batch of a round that starts at `dataIndex`. */
    function BatchAt(dataIndex: nat): nat {
      batchRule(dataIndex)
    }

    /** The batches follow the configured schedule, by the tokens that the data before amounts to. */
    ghost predicate Scheduled() {
      forall dataIndex: nat :: batchRule(dataIndex) == config.BatchSize(dataIndex * sequenceLength)
    }

    predicate TimedOut(now: nat, duration: nat) {
      runStateStart != now && now >= duration + runStateStart
    }

    predicate EpochTimedOut(now: nat) {
      epoch.startTimestamp != now && now >= epoch.startTimestamp + config.epochTime
    }

    /** How many witness messages end a round early. */
    function WitnessTarget(): nat {
      if config.witnessNodes == 0 then
        if |epoch.clients| < SOLANA_MAX_NUM_WITNESSES then |epoch.clients| else SOLANA_MAX_NUM_WITNESSES
      else config.witnessNodes
    }
  }

  /** The hash functions the protocol consults. */
  datatype Hashes = Hashes(sha: Sha, fnv: Fnv)

  /** The places where the source would abort. */
  datatype PanicSite =
    | ExitedClientsFull   // pushing onto a full list of exited clients
    | StateUnchanged      // changing to the state the coordinator is already in
    | NoWitnessNodes      // the quorum of zero witness nodes
    | ClientOutOfBounds   // indexing the client list
    | RoundOutOfBounds    // indexing the ring of rounds
    | CommitteeDuty       // judging the health of a verifier or tie breaker

  datatype Attempt<+T> = Running(value: T) | Panicked(site: PanicSite) {
    predicate IsFailure() {
      Panicked?
    }

    function PropagateFailure<U>(): Attempt<U>
      requires Panicked?
    {
      Panicked(site)
    }

    function Extract(): T
      requires Running?
    {
      value
    }
  }

  datatype Reply =
    | Ticked
    | EpochEnd(finished: bool)
    | Accepted
    | DroppedClients(count: nat)
    | Rejected(error: CoordinatorError)

  datatype Step = Step(state: State, reply: Reply)

  // ----- client lists -----

  /** The clients that stay when the list is purged. */
  function Staying(clients: seq<Client>): seq<Client> {
    if clients == [] then []
    else
      var n := |clients| - 1;
      Staying(clients[..n]) + if clients[n].state == Healthy then [clients[n]] else []
  }

  /** The clients that leave, stamped with the height at which they do. */
  function Leaving(clients: seq<Client>, height: nat): seq<Client> {
    if clients == [] then []
    else
      var n := |clients| - 1;
      Leaving(clients[..n], height)
      + if clients[n].state == Healthy then [] else [clients[n].(exitedHeight := height)]
  }

  function MoveClientsToExited(e: EpochState, height: nat): Attempt<EpochState> {
    var leaving := Leaving(e.clients, height);
    if |e.exitedClients| + |leaving| > SOLANA_MAX_NUM_CLIENTS then Panicked(ExitedClientsFull)
    else Running(e.(clients := Staying(e.clients), exitedClients := e.exitedClients + leaving))
  }

  predicate CanWithdraw(clients: seq<Client>, index: nat) {
    index < |clients| && clients[index].state == Healthy
  }

  function WithdrawAt(clients: seq<Client>, index: nat): seq<Client>
    requires index < |clients|
  {
    clients[index := clients[index].(state := Withdrawn)]
  }

  /** Withdraws clients in order from `i` on and stops at the first that is not healthy. */
  function WithdrawFrom(clients: seq<Client>, i: nat): (seq<Client>, bool)
    decreases |clients| - i
  {
    if i >= |clients| then (clients, true)
    else if CanWithdraw(clients, i) then WithdrawFrom(WithdrawAt(clients, i), i + 1)
    else (clients, false)
  }

  // ----- rounds -----

  function CurrentRound(e: EpochState): Attempt<Round> {
    if e.roundsHead < NUM_STORED_ROUNDS then Running(e.rounds[e.roundsHead]) else Panicked(RoundOutOfBounds)
  }

  function SetCurrentRound(e: EpochState, round: Round): EpochState
    requires e.roundsHead < NUM_STORED_ROUNDS
  {
    e.(rounds := e.rounds[e.roundsHead := round])
  }

  function PreviousRound(e: EpochState): Option<Round> {
    if e.roundsHead >= NUM_STORED_ROUNDS then None
    else if e.roundsHead == 0 && e.rounds[e.roundsHead].height == 0 then None
    else if e.roundsHead == 0 then Some(e.rounds[NUM_STORED_ROUNDS - 1])
    else Some(e.rounds[e.roundsHead - 1])
  }

  function PreviousPreviousRound(e: EpochState): Option<Round> {
    if e.roundsHead >= NUM_STORED_ROUNDS then None
    else if e.roundsHead == 0 && e.rounds[e.roundsHead].height <= 1 then None
    else if e.roundsHead == 0 then Some(e.rounds[NUM_STORED_ROUNDS - 2])
    else if e.roundsHead == 1 then Some(e.rounds[NUM_STORED_ROUNDS - 1])
    else Some(e.rounds[e.roundsHead - 2])
  }

  function ClientAtHistoricalIndex(e: EpochState, n: nat, prevClientsLen: nat): Option<Client> {
    if n < |e.clients| then Some(e.clients[n])
    else if n < prevClientsLen then
      var offset := prevClientsLen - n - 1;
      if offset < |e.exitedClients| then Some(e.exitedClients[|e.exitedClients| - 1 - offset]) else None
    else None
  }

  /** The clients of a round that had `clientsLen` of them, skipping the indices with no answer. */
  function HistoricalClients(e: EpochState, clientsLen: nat, upTo: nat): seq<Client> {
    if upTo == 0 then []
    else
      HistoricalClients(e, clientsLen, upTo - 1)
      + match ClientAtHistoricalIndex(e, upTo - 1, clientsLen)
        case None => []
        case Some(client) => [client]
  }

  function GetHistoricalClients(e: EpochState, clientsLen: nat): seq<Client> {
    HistoricalClients(e, clientsLen, clientsLen)
  }

  function FromCoordinator(h: Hashes, s: State, offset: int): Result<CommitteeSelection, CoordinatorError> {
    var found :=
      if offset == -2 then PreviousPreviousRound(s.epoch)
      else if offset == -1 then PreviousRound(s.epoch)
      else if offset == 0 && s.epoch.roundsHead < NUM_STORED_ROUNDS then Some(s.epoch.rounds[s.epoch.roundsHead])
      else None;
    match found
    case None => Failure(NoActiveRound)
    case Some(round) =>
      New(h.sha, round.tieBreakerTasks, s.config.witnessNodes, s.config.verificationPercent,
          round.clientsLen, round.randomSeed)
  }

  // ----- state changes -----

  function ChangeState(s: State, now: nat, newState: RunState): Attempt<State> {
    if s.runState == newState then Panicked(StateUnchanged)
    else Running(s.(runState := newState, runStateStart := now))
  }

  function StartWaitingForMembers(s: State, now: nat): Attempt<State> {
    ChangeState(s, now, if s.progress.step < s.config.totalSteps then WaitingForMembers else Finished)
  }

  function StartCooldown(s: State, now: nat): Attempt<State> {
    var round :- CurrentRound(s.epoch);
    ChangeState(s.(epoch := SetCurrentRound(s.epoch, round.(witnesses := []))), now, Cooldown)
  }

  datatype NextRound = NextRound(head: nat, height: nat, dataIndex: nat)

  function PlanNextRound(s: State): Attempt<NextRound> {
    if s.epoch.firstRound then Running(NextRound(0, 0, s.progress.epochStartDataIndex))
    else
      var prev :- CurrentRound(s.epoch);
      Running(NextRound(
                (s.epoch.roundsHead + 1) % NUM_STORED_ROUNDS,
                prev.height + 1,
                prev.dataIndex + s.BatchAt(prev.dataIndex)))
  }

  function StartRoundTrain(s: State, now: nat, seed: nat, tieBreakerTasks: nat): Attempt<State> {
    var next :- PlanNextRound(s);
    if next.head >= NUM_STORED_ROUNDS then Panicked(RoundOutOfBounds)
    else
      var round := Round([], next.dataIndex, seed, next.height, |s.epoch.clients|, tieBreakerTasks);
      var epoch := SetCurrentRound(s.epoch.(roundsHead := next.head), round);
      ChangeState(s.(epoch := epoch), now, RoundTrain)
  }

  // ----- ticks -----

  function TickWaitingForMembers(s: State, pending: Option<seq<NodeId>>, now: nat): Attempt<Step> {
    if pending.None? then Running(Step(s, Ticked))
    else if AsU16(|pending.value|) >= s.config.initMinClients
            && s.TimedOut(now, s.config.waitingForMembersExtraTime)
    then
      var round :- CurrentRound(s.epoch);
      var purged :- MoveClientsToExited(s.epoch, round.height);
      var s1 :- ChangeState(s.(epoch := NewEpoch(s, pending.value, now)), now, Warmup);
      Running(Step(s1, Ticked))
    else Running(Step(s, Ticked))
  }

  /** A length cast to sixteen bits. */
  function AsU16(n: nat): nat {
    n % 0x1_0000
  }

  /** The epoch state of a new epoch: everything zeroed but what is set here. */
  function NewEpoch(s: State, pending: seq<NodeId>, now: nat): EpochState {
    EpochState(ZERO_RING, Admitted(pending), [], 0, s.progress.step, 0, now, true, s.epoch.coldStartEpoch)
  }

  /** The first pending clients, as many as fit. */
  function Admitted(pending: seq<NodeId>): (clients: seq<Client>) {
    if pending == [] then []
    else
      var n := |pending| - 1;
      Admitted(pending[..n]) + if n < SOLANA_MAX_NUM_CLIENTS then [NewClient(pending[n])] else []
  }

  function TickWarmup(s: State, now: nat, seed: nat): Attempt<Step> {
    var s1 :- if s.TimedOut(now, s.config.warmupTime) then StartRoundTrain(s, now, seed, 0) else PurgeInWarmup(s);
    if |s1.epoch.clients| < s.config.minClients then
      var s2 :- StartWaitingForMembers(s1, now);
      Running(Step(s2, EpochEnd(false)))
    else Running(Step(s1, Ticked))
  }

  function PurgeInWarmup(s: State): Attempt<State> {
    var epoch :- MoveClientsToExited(s.epoch, 0);
    Running(s.(epoch := epoch))
  }

  function TickRoundTrain(s: State, now: nat): Attempt<Step> {
    if s.TimedOut(now, s.config.maxRoundTrainTime) then
      var s1 :- ChangeState(s, now, RoundWitness);
      Running(Step(s1, Ticked))
    else Running(Step(s, Ticked))
  }

  function Quorum(config: Config, numWitnesses: nat): Attempt<nat> {
    var witnessNodes := if config.witnessNodes == 0 then numWitnesses else config.witnessNodes;
    if witnessNodes == 0 then Panicked(NoWitnessNodes)
    else if witnessNodes == 1 then Running(1)
    else if witnessNodes <= 3 then Running(2)
    else Running(witnessNodes * 2 / 3)
  }

  function TickRoundWitness(s: State, now: nat, seed: nat): Attempt<Step> {
    if !s.TimedOut(now, s.config.roundWitnessTime) then Running(Step(s, Ticked))
    else
      var round :- CurrentRound(s.epoch);
      var numWitnesses := |round.witnesses|;
      var epoch :- MoveClientsToExited(s.epoch.(firstRound := false), round.height);
      AfterClosing(s.(epoch := epoch, progress := s.progress.(step := s.progress.step + 1)), numWitnesses, now, seed)
  }

  /** What follows a round that has closed. */
  function AfterClosing(s: State, numWitnesses: nat, now: nat, seed: nat): Attempt<Step> {
    if numWitnesses == 0 then
      var (clients, ok) := WithdrawFrom(s.epoch.clients, 0);
      var s1 := s.(epoch := s.epoch.(clients := clients));
      if !ok then Running(Step(s1, Rejected(InvalidWithdraw)))
      else
        var s2 :- StartCooldown(s1, now);
        Running(Step(s2, Ticked))
    else
      var s1 := s.(epoch := s.epoch.(lastStep := ChooseLastStep(s, now)));
      if s1.epoch.lastStep != 0 && s1.progress.step == s1.epoch.lastStep then
        var s2 :- StartCooldown(s1, now);
        Running(Step(s2, Ticked))
      else
        var ends :- RunMustCoolDown(s1, numWitnesses);
        var s2 :- if ends then StartCooldown(s1, now) else StartRoundTrain(s1, now, seed, 0);
        Running(Step(s2, Ticked))
  }

  /** Sets the epoch's last step two steps ahead once the epoch has timed out. */
  function ChooseLastStep(s: State, now: nat): nat {
    if s.EpochTimedOut(now) && s.epoch.lastStep == 0 && s.progress.step + 2 >= 4 then s.progress.step + 2
    else s.epoch.lastStep
  }

  function RunMustCoolDown(s: State, numWitnesses: nat): Attempt<bool> {
    if |s.epoch.clients| < s.config.minClients then Running(true)
    else
      var quorum :- Quorum(s.config, numWitnesses);
      Running(numWitnesses < quorum || s.progress.step >= s.config.totalSteps || s.pendingPause)
  }

  function TickCooldown(s: State, now: nat): Attempt<Step> {
    if !s.TimedOut(now, s.config.cooldownTime) then Running(Step(s, Ticked))
    else
      var round :- CurrentRound(s.epoch);
      var progress := s.progress.(
        epochStartDataIndex := round.dataIndex + s.BatchAt(round.dataIndex),
        epoch := s.progress.epoch + 1);
      var epoch :- MoveClientsToExited(s.epoch, round.height);
      AfterCooldown(s.(progress := progress, epoch := epoch), now)
  }

  /** What follows an epoch that is over. */
  function AfterCooldown(s: State, now: nat): Attempt<Step> {
    if s.pendingPause then
      var (clients, ok) := WithdrawFrom(s.epoch.clients, 0);
      var s1 := s.(epoch := s.epoch.(clients := clients));
      if !ok then Running(Step(s1, Rejected(InvalidWithdraw)))
      else
        var s2 :- ChangeState(s1, now, Paused);
        Running(Step(s2.(pendingPause := false, epoch := s2.epoch.(coldStartEpoch := true)), EpochEnd(true)))
    else
      var s1 :- StartWaitingForMembers(s, now);
      Running(Step(s1.(epoch := s1.epoch.(coldStartEpoch := false)), EpochEnd(true)))
  }

  function Tick(s: State, pending: Option<seq<NodeId>>, now: nat, seed: nat): Attempt<Step> {
    match s.runState
    case Uninitialized => Running(Step(s, Rejected(Halted)))
    case Finished => Running(Step(s, Rejected(Halted)))
    case Paused => Running(Step(s, Rejected(Halted)))
    case WaitingForMembers => TickWaitingForMembers(s, pending, now)
    case Warmup => TickWarmup(s, now, seed)
    case RoundTrain => TickRoundTrain(s, now)
    case RoundWitness => TickRoundWitness(s, now, seed)
    case Cooldown => TickCooldown(s, now)
  }

  // ----- witness messages -----

  /** Whether one of the recorded witnesses is the client `from`. */
  function AlreadyReported(witnesses: seq<Witness>, clients: seq<Client>, from: NodeId): Attempt<bool> {
    if witnesses == [] then Running(false)
    else if witnesses[0].proof.index >= |clients| then Panicked(ClientOutOfBounds)
    else if clients[witnesses[0].proof.index].id == from then Running(true)
    else AlreadyReported(witnesses[1..], clients, from)
  }

  function AddWarmupWitness(s: State, from: NodeId, w: Witness, now: nat, seed: nat): Attempt<Step> {
    if s.IsHalted() then Running(Step(s, Rejected(Halted)))
    else if s.runState == RoundTrain then Running(Step(s, Accepted))
    else if s.runState != Warmup then Running(Step(s, Rejected(InvalidRunState)))
    else
      var round :- CurrentRound(s.epoch);
      var duplicate :- AlreadyReported(round.witnesses, s.epoch.clients, from);
      if duplicate then Running(Step(s, Rejected(DuplicateWitness)))
      else if |round.witnesses| >= SOLANA_MAX_NUM_WITNESSES then Running(Step(s, Rejected(WitnessesFull)))
      else
        var s1 := s.(epoch := SetCurrentRound(s.epoch, round.(witnesses := round.witnesses + [w])));
        if |round.witnesses| + 1 == s.WitnessTarget() then
          var s2 :- StartRoundTrain(s1, now, seed, 0);
          Running(Step(s2, Accepted))
        else Running(Step(s1, Accepted))
  }

  function AddWitness(h: Hashes, s: State, from: NodeId, w: Witness, now: nat): Attempt<Step> {
    if s.IsHalted() then Running(Step(s, Rejected(Halted)))
    else if s.runState != RoundWitness && s.runState != RoundTrain then Running(Step(s, Rejected(InvalidRunState)))
    else
      match FromCoordinator(h, s, 0)
      case Failure(error) => Running(Step(s, Rejected(error)))
      case Success(selection) =>
        if VerifyClient(from, w.proof.index, s.epoch.clients) && w.proof.index >= selection.totalNodes then
          Panicked(ClientOutOfBounds)
        else if !selection.VerifyWitnessForClient(h.sha, from, w.proof, s.epoch.clients) || !w.proof.isWitness then
          Running(Step(s, Rejected(InvalidWitness)))
        else RecordWitness(s, from, w, now)
  }

  function RecordWitness(s: State, from: NodeId, w: Witness, now: nat): Attempt<Step> {
    var round :- CurrentRound(s.epoch);
    var duplicate :- AlreadyReported(round.witnesses, s.epoch.clients, from);
    if duplicate then Running(Step(s, Rejected(DuplicateWitness)))
    else if |round.witnesses| >= SOLANA_MAX_NUM_WITNESSES then Running(Step(s, Rejected(WitnessesFull)))
    else
      var s1 := s.(epoch := SetCurrentRound(s.epoch, round.(witnesses := round.witnesses + [w])));
      if |round.witnesses| + 1 == s.WitnessTarget() && s.runState != RoundWitness then
        var s2 :- ChangeState(s1, now, RoundWitness);
        Running(Step(s2, Accepted))
      else Running(Step(s1, Accepted))
  }

  // ----- health checks -----

  /** How many witnesses saw the client's work. */
  function HealthScore(h: Hashes, id: NodeId, witnesses: seq<Witness>): nat {
    if witnesses == [] then 0
    else
      var n := |witnesses| - 1;
      HealthScore(h, id, witnesses[..n])
      + if Contains(h.fnv, witnesses[n].participantBloom, h.sha(id)) then 1 else 0
  }

  function TrainerHealthy(h: Hashes, s: State, id: NodeId): Attempt<Result<bool, CoordinatorError>> {
    match PreviousRound(s.epoch)
    case None => Running(Failure(NoActiveRound))
    case Some(round) =>
      var quorum :- Quorum(s.config, |round.witnesses|);
      Running(Success(HealthScore(h, id, round.witnesses) >= quorum))
  }

  function IsHealthy(h: Hashes, s: State, id: NodeId, proof: CommitteeProof): Attempt<Result<bool, CoordinatorError>> {
    match PreviousRound(s.epoch)
    case None => Running(Failure(NoActiveRound))
    case Some(round) =>
      if proof.index >= round.clientsLen then Running(Failure(InvalidCommitteeProof))
      else
        match ClientAtHistoricalIndex(s.epoch, proof.index, round.clientsLen)
        case None => Running(Failure(InvalidCommitteeProof))
        case Some(client) =>
          match FromCoordinator(h, s, -1)
          case Failure(error) => Running(Failure(error))
          case Success(selection) =>
            if client.id != id
               || !selection.VerifyCommitteeForClient(h.sha, client.id, proof, s.epoch.clients)
            then Running(Failure(InvalidCommitteeProof))
            else if proof.committee != Trainer then Panicked(CommitteeDuty)
            else TrainerHealthy(h, s, client.id)
  }

  type HealthChecks = seq<(NodeId, CommitteeProof)>

  /** The error that the first unacceptable check raises, if there is one. */
  function FirstRejection(h: Hashes, s: State, checks: HealthChecks): Attempt<Option<CoordinatorError>> {
    if checks == [] then Running(None)
    else
      var verdict :- IsHealthy(h, s, checks[0].0, checks[0].1);
      match verdict
      case Failure(error) => Running(Some(error))
      case Success(healthy) =>
        if healthy then Running(Some(InvalidHealthCheck)) else FirstRejection(h, s, checks[1..])
  }

  /** Drops every healthy client that is named, and counts them. */
  function DropNamed(clients: seq<Client>, checks: HealthChecks): Attempt<(seq<Client>, nat)> {
    if checks == [] then Running((clients, 0))
    else
      var n := |checks| - 1;
      var earlier :- DropNamed(clients, checks[..n]);
      var (before, dropped) := earlier;
      var index := checks[n].1.index;
      if index >= |before| then Panicked(ClientOutOfBounds)
      else if before[index].state == Healthy then
        Running((before[index := before[index].(state := Dropped)], dropped + 1))
      else Running((before, dropped))
  }

  function HealthCheck(h: Hashes, s: State, checks: HealthChecks): Attempt<Step> {
    if s.IsHalted() then Running(Step(s, Rejected(Halted)))
    else if s.epoch.roundsHead >= NUM_STORED_ROUNDS then Running(Step(s, Rejected(NoActiveRound)))
    else if s.epoch.rounds[s.epoch.roundsHead].height < 2 then Running(Step(s, Rejected(InvalidHealthCheck)))
    else
      var rejection :- FirstRejection(h, s, checks);
      match rejection
      case Some(error) => Running(Step(s, Rejected(error)))
      case None =>
        var result :- DropNamed(s.epoch.clients, checks);
        var (clients, dropped) := result;
        Running(Step(s.(epoch := s.epoch.(clients := clients)), DroppedClients(dropped)))
  }

  // ----- leaving, pausing, resuming -----

  function Withdraw(s: State, index: nat): Step {
    if CanWithdraw(s.epoch.clients, index) then
      Step(s.(epoch := s.epoch.(clients := WithdrawAt(s.epoch.clients, index))), Accepted)
    else Step(s, Rejected(InvalidWithdraw))
  }

  function WithdrawAll(s: State): Step {
    var (clients, ok) := WithdrawFrom(s.epoch.clients, 0);
    Step(s.(epoch := s.epoch.(clients := clients)), if ok then Accepted else Rejected(InvalidWithdraw))
  }

  function Pause(s: State, now: nat): Attempt<Step> {
    if s.IsHalted() then Running(Step(s, Rejected(Halted)))
    else if s.IsActive() then Running(Step(s.(pendingPause := true), Accepted))
    else
      var (clients, ok) := WithdrawFrom(s.epoch.clients, 0);
      var s1 := s.(epoch := s.epoch.(clients := clients));
      if !ok then Running(Step(s1, Rejected(InvalidWithdraw)))
      else
        var s2 :- ChangeState(s1, now, Paused);
        Running(Step(s2.(epoch := s2.epoch.(coldStartEpoch := true)), Accepted))
  }

  function Resume(s: State, now: nat): Attempt<Step> {
    if s.runState != Paused then Running(Step(s, Rejected(CannotResume)))
    else
      var s1 :- StartWaitingForMembers(s, now);
      Running(Step(s1, Accepted))
  }

  // ----- events -----

  datatype Event =
    | TickEvent(pending: Option<seq<NodeId>>, now: nat, seed: nat)
    | WarmupWitnessEvent(from: NodeId, message: Witness, now: nat, seed: nat)
    | WitnessEvent(from: NodeId, message: Witness, now: nat)
    | HealthCheckEvent(checks: HealthChecks)
    | WithdrawEvent(index: nat)
    | WithdrawAllEvent
    | PauseEvent(now: nat)
    | ResumeEvent(now: nat)

  function Apply(h: Hashes, s: State, event: Event): Attempt<Step> {
    match event
    case TickEvent(pending, now, seed) => Tick(s, pending, now, seed)
    case WarmupWitnessEvent(from, message, now, seed) => AddWarmupWitness(s, from, message, now, seed)
    case WitnessEvent(from, message, now) => AddWitness(h, s, from, message, now)
    case HealthCheckEvent(checks) => HealthCheck(h, s, checks)
    case WithdrawEvent(index) => Running(Withdraw(s, index))
    case WithdrawAllEvent => Running(WithdrawAll(s))
    case PauseEvent(now) => Pause(s, now)
    case ResumeEvent(now) => Resume(s, now)
  }

  /** The state after a sequence of events, none of which panicked. */
  function Run(h: Hashes, s: State, events: seq<Event>): Attempt<State> {
    if events == [] then Running(s)
    else
      var n := |events| - 1;
      var before :- Run(h, s, events[..n]);
      var step :- Apply(h, before, events[n]);
      Running(step.state)
  }

  /** A paused coordinator with default progress and zeroed epoch state. */
  ghost predicate Initial(s: State) {
    && s.Scheduled()
    && s.runState == Paused
    && s.progress.step == 1
    && s.progress.epochStartDataIndex == 0
    && s.epoch.rounds == ZERO_RING
    && s.epoch.roundsHead == 0
    && s.epoch.clients == []
    && s.epoch.exitedClients == []
    && s.epoch.lastStep == 0
    && s.epoch.startStep == 0
  }
}
