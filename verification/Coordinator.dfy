/**
The coordinator itself: an object whose methods update its fields in place. Every method is proved
to take the transition of the protocol, and every public one to keep the invariant; so the places
where the source would abort are discharged here as assertions.
*/
module Coordinators {
  import opened Wrappers
  import opened Blooms
  import opened Protocol
  import opened Committees
  import opened CoordinatorModel
  import opened CoordinatorInvariant
  import opened CoordinatorWitnesses
  import opened CoordinatorSteps
  import opened CoordinatorHealth
  import opened CoordinatorRuns
  import opened CoordinatorQuorum

  class Coordinator {
    const hashes: Hashes
    const config: CheckedConfig
    const sequenceLength: nat
    const batchRule: nat -> nat
    const rounds: array<Round>

    var runState: RunState
    var progress: Progress
    var clients: seq<Client>
    var exitedClients: seq<Client>
    var roundsHead: nat
    var startStep: nat
    var lastStep: nat
    var startTimestamp: nat
    var firstRound: bool
    var coldStartEpoch: bool
    var runStateStart: nat
    var pendingPause: bool

    ghost function EpochView(): EpochState
      reads this, rounds
      requires rounds.Length == NUM_STORED_ROUNDS
    {
      EpochState(rounds[..], clients, exitedClients, roundsHead, startStep, lastStep,
                 startTimestamp, firstRound, coldStartEpoch)
    }

    ghost function View(): State
      reads this, rounds
      requires rounds.Length == NUM_STORED_ROUNDS
    {
      State(runState, config, sequenceLength, batchRule, progress, EpochView(), runStateStart, pendingPause)
    }

    ghost predicate Valid()
      reads this, rounds
    {
      rounds.Length == NUM_STORED_ROUNDS && Inv(hashes, View())
    }

    /** A paused coordinator with default progress and a zeroed epoch state. */
    constructor (hashes: Hashes, config: CheckedConfig, sequenceLength: nat)
      ensures Valid() && Initial(View()) && fresh(rounds)
      ensures this.hashes == hashes && this.config == config && this.sequenceLength == sequenceLength
    {
      this.hashes := hashes;
      this.config := config;
      this.sequenceLength := sequenceLength;
      batchRule := (dataIndex: nat) => config.BatchSize(dataIndex * sequenceLength);
      rounds := new Round[NUM_STORED_ROUNDS](_ => ZERO_ROUND);
      runState := Paused;
      progress := Progress(0, 1, 0);
      clients, exitedClients := [], [];
      roundsHead, startStep, lastStep, startTimestamp := 0, 0, 0, 0;
      firstRound, coldStartEpoch := true, false;
      runStateStart, pendingPause := 0, false;
      new;
      assert rounds[..] == ZERO_RING;
      InitialInv(hashes, View());
    }

    // ----- helpers, in states that may break the invariant for a moment -----

    method ChangeRunState(now: nat, newState: RunState)
      requires rounds.Length == NUM_STORED_ROUNDS
      requires runState != newState
      modifies this`runState, this`runStateStart
      ensures ChangeState(old(View()), now, newState) == Running(View())
    {
      runStateStart := now;
      runState := newState;
    }

    method BeginWaitingForMembers(now: nat)
      requires rounds.Length == NUM_STORED_ROUNDS
      requires runState != WaitingForMembers && runState != Finished
      modifies this`runState, this`runStateStart
      ensures StartWaitingForMembers(old(View()), now) == Running(View())
    {
      ChangeRunState(now, if progress.step < config.totalSteps then WaitingForMembers else Finished);
    }

    method BeginCooldown(now: nat)
      requires rounds.Length == NUM_STORED_ROUNDS
      requires roundsHead < NUM_STORED_ROUNDS && runState != Cooldown
      modifies this`runState, this`runStateStart, rounds
      ensures StartCooldown(old(View()), now) == Running(View())
    {
      rounds[roundsHead] := rounds[roundsHead].(witnesses := []);
      ChangeRunState(now, Cooldown);
    }

    method BeginRoundTrain(now: nat, seed: nat, tieBreakerTasks: nat)
      requires rounds.Length == NUM_STORED_ROUNDS
      requires roundsHead < NUM_STORED_ROUNDS && runState != RoundTrain
      modifies this`runState, this`runStateStart, this`roundsHead, rounds
      ensures StartRoundTrain(old(View()), now, seed, tieBreakerTasks) == Running(View())
    {
      var nextHead, nextHeight, nextDataIndex := 0, 0, progress.epochStartDataIndex;
      if !firstRound {
        var prev := rounds[roundsHead];
        var batchSize := batchRule(prev.dataIndex);
        nextHead := (roundsHead + 1) % rounds.Length;
        nextHeight := prev.height + 1;
        nextDataIndex := prev.dataIndex + batchSize;
      }
      assert PlanNextRound(View()) == Running(NextRound(nextHead, nextHeight, nextDataIndex));
      roundsHead := nextHead;
      rounds[nextHead] := Round([], nextDataIndex, seed, nextHeight, |clients|, tieBreakerTasks);
      ChangeRunState(now, RoundTrain);
    }

    /** Purges the list in one pass; the exited list cannot overflow. */
    method MoveToExited(height: nat)
      requires rounds.Length == NUM_STORED_ROUNDS
      requires |clients| + |exitedClients| <= SOLANA_MAX_NUM_CLIENTS
      modifies this`clients, this`exitedClients
      ensures MoveClientsToExited(old(EpochView()), height) == Running(EpochView())
      ensures AllHealthy(clients) && |clients| + |exitedClients| <= SOLANA_MAX_NUM_CLIENTS
    {
      PurgeSplits(clients, height);
      Purge(height);
    }

    method Purge(height: nat)
      requires |clients| + |exitedClients| <= SOLANA_MAX_NUM_CLIENTS
      modifies this`clients, this`exitedClients
      ensures clients == Staying(old(clients))
      ensures exitedClients == old(exitedClients) + Leaving(old(clients), height)
    {
      ghost var before := clients;
      var kept := [];
      for read := 0 to |clients|
        invariant clients == before
        invariant kept == Staying(before[..read])
        invariant exitedClients == old(exitedClients) + Leaving(before[..read], height)
        modifies this`exitedClients
      {
        PurgeStep(before, read, height);
        if clients[read].state != Healthy {
          LeavingFits(before[..read], height);
          assert |exitedClients| < SOLANA_MAX_NUM_CLIENTS;
          exitedClients := exitedClients + [clients[read].(exitedHeight := height)];
        } else {
          kept := kept + [clients[read]];
        }
      }
      assert before[..|before|] == before;
      clients := kept;
    }

    method TryWithdraw(index: nat) returns (ok: bool)
      modifies this`clients
      ensures ok == CanWithdraw(old(clients), index)
      ensures clients == if ok then WithdrawAt(old(clients), index) else old(clients)
    {
      if index < |clients| {
        if clients[index].state == Healthy {
          clients := clients[index := clients[index].(state := Withdrawn)];
          return true;
        }
      }
      return false;
    }

    method TryWithdrawAll() returns (ok: bool)
      modifies this`clients
      ensures (clients, ok) == WithdrawFrom(old(clients), 0)
    {
      var n := |clients|;
      for index := 0 to n
        invariant |clients| == n
        invariant WithdrawFrom(clients, index) == WithdrawFrom(old(clients), 0)
      {
        var withdrawn := TryWithdraw(index);
        if !withdrawn {
          return false;
        }
      }
      return true;
    }

    // ----- ticks -----

    method TickWaiting(pending: Option<seq<NodeId>>, now: nat)
      requires Valid() && runState == WaitingForMembers
      modifies this, rounds
      ensures rounds.Length == NUM_STORED_ROUNDS
      ensures TickWaitingForMembers(old(View()), pending, now) == Running(Step(View(), Ticked))
    {
      if pending.None? {
        return;
      }
      if AsU16(|pending.value|) >= config.initMinClients
         && TimedOut(now, config.waitingForMembersExtraTime)
      {
        MoveToExited(rounds[roundsHead].height);
        OpenEpoch(pending.value, now);
        ChangeRunState(now, Warmup);
      }
    }

    /** Zeroes the epoch state and admits as many of the pending clients as fit. */
    method OpenEpoch(pending: seq<NodeId>, now: nat)
      requires rounds.Length == NUM_STORED_ROUNDS
      modifies this`clients, this`exitedClients, this`roundsHead, this`startStep, this`lastStep,
        this`startTimestamp, this`firstRound, rounds
      ensures EpochView() == NewEpoch(old(View()), pending, now)
    {
      rounds[0], rounds[1], rounds[2], rounds[3] := ZERO_ROUND, ZERO_ROUND, ZERO_ROUND, ZERO_ROUND;
      exitedClients, roundsHead, lastStep := [], 0, 0;
      firstRound := true;
      startStep := progress.step;
      startTimestamp := now;
      Admit(pending);
      assert rounds[..] == ZERO_RING;
    }

    method Admit(pending: seq<NodeId>)
      modifies this`clients
      ensures clients == Admitted(pending)
    {
      clients := [];
      for i := 0 to |pending|
        invariant clients == Admitted(pending[..i])
        modifies this`clients
      {
        assert pending[..i + 1][..i] == pending[..i];
        AdmittedSize(pending[..i]);
        if i < SOLANA_MAX_NUM_CLIENTS {
          assert |clients| < SOLANA_MAX_NUM_CLIENTS;
          clients := clients + [NewClient(pending[i])];
        }
      }
      assert pending[..|pending|] == pending;
    }

    predicate TimedOut(now: nat, duration: nat)
      reads this
    {
      runStateStart != now && now >= duration + runStateStart
    }

    method TickWarm(now: nat, seed: nat) returns (reply: Reply)
      requires Valid() && runState == Warmup
      modifies this, rounds
      ensures rounds.Length == NUM_STORED_ROUNDS
      ensures TickWarmup(old(View()), now, seed) == Running(Step(View(), reply))
    {
      if TimedOut(now, config.warmupTime) {
        BeginRoundTrain(now, seed, 0);
      } else {
        MoveToExited(0);
      }
      if |clients| < config.minClients {
        BeginWaitingForMembers(now);
        return EpochEnd(false);
      }
      return Ticked;
    }

    method TickTrain(now: nat)
      requires Valid() && runState == RoundTrain
      modifies this
      ensures TickRoundTrain(old(View()), now) == Running(Step(View(), Ticked))
    {
      if TimedOut(now, config.maxRoundTrainTime) {
        ChangeRunState(now, RoundWitness);
      }
    }

    method WitnessQuorum(numWitnesses: nat) returns (quorum: nat)
      requires config.witnessNodes == 0 ==> numWitnesses > 0
      ensures Quorum(config, numWitnesses) == Running(quorum)
      ensures IsQuorumOf(quorum, if config.witnessNodes == 0 then numWitnesses else config.witnessNodes)
    {
      var witnessNodes := if config.witnessNodes == 0 then numWitnesses else config.witnessNodes;
      if witnessNodes == 0 {
        assert false;
      } else if witnessNodes == 1 {
        return 1;
      } else if witnessNodes <= 3 {
        return 2;
      }
      return witnessNodes * 2 / 3;
    }

    method TickWitness(now: nat, seed: nat) returns (reply: Reply)
      requires Valid() && runState == RoundWitness
      modifies this, rounds
      ensures rounds.Length == NUM_STORED_ROUNDS
      ensures TickRoundWitness(old(View()), now, seed) == Running(Step(View(), reply))
    {
      if !TimedOut(now, config.roundWitnessTime) {
        return Ticked;
      }
      ClosingIsAfterClosing(hashes, View(), now, seed);
      var numWitnesses := CloseRound();
      reply := FollowClosing(numWitnesses, now, seed);
    }

    /** Counts the step and purges the list; what follows is decided on the number of witnesses. */
    method CloseRound() returns (numWitnesses: nat)
      requires rounds.Length == NUM_STORED_ROUNDS && roundsHead < NUM_STORED_ROUNDS
      requires |clients| + |exitedClients| <= SOLANA_MAX_NUM_CLIENTS
      modifies this`firstRound, this`progress, this`clients, this`exitedClients
      ensures View() == RoundClosing(old(View()))
      ensures numWitnesses == |Behind(old(EpochView()), 0).witnesses|
      ensures AllHealthy(clients)
    {
      firstRound := false;
      progress := progress.(step := progress.step + 1);
      var height := rounds[roundsHead].height;
      numWitnesses := |rounds[roundsHead].witnesses|;
      MoveToExited(height);
    }

    /** A closed round is followed by a cooldown or by the next round. */
    method FollowClosing(numWitnesses: nat, now: nat, seed: nat) returns (reply: Reply)
      requires rounds.Length == NUM_STORED_ROUNDS
      requires roundsHead < NUM_STORED_ROUNDS && runState == RoundWitness && AllHealthy(clients)
      modifies this, rounds
      ensures rounds.Length == NUM_STORED_ROUNDS
      ensures AfterClosing(old(View()), numWitnesses, now, seed) == Running(Step(View(), reply))
    {
      if numWitnesses == 0 {
        WithdrawFromSucceedsIff(clients, 0);
        var ok := TryWithdrawAll();
        assert ok;
        BeginCooldown(now);
        return Ticked;
      }
      if startTimestamp != now && now >= startTimestamp + config.epochTime && lastStep == 0 {
        var last := progress.step + 2;
        if last >= 4 {
          lastStep := last;
        }
      }
      assert lastStep == ChooseLastStep(old(View()), now);
      if lastStep != 0 && progress.step == lastStep {
        BeginCooldown(now);
        return Ticked;
      }
      var coolDown := MustCoolDown(numWitnesses);
      if coolDown {
        BeginCooldown(now);
      } else {
        BeginRoundTrain(now, seed, 0);
      }
      return Ticked;
    }

    method MustCoolDown(numWitnesses: nat) returns (ends: bool)
      requires rounds.Length == NUM_STORED_ROUNDS && numWitnesses > 0
      ensures RunMustCoolDown(View(), numWitnesses) == Running(ends)
    {
      if |clients| < config.minClients {
        return true;
      }
      var quorum := WitnessQuorum(numWitnesses);
      return numWitnesses < quorum || progress.step >= config.totalSteps || pendingPause;
    }

    method TickCool(now: nat) returns (reply: Reply)
      requires Valid() && runState == Cooldown
      modifies this, rounds
      ensures rounds.Length == NUM_STORED_ROUNDS
      ensures TickCooldown(old(View()), now) == Running(Step(View(), reply))
    {
      if !TimedOut(now, config.cooldownTime) {
        return Ticked;
      }
      CooldownIsAfterCooldown(hashes, View(), now);
      CloseEpoch();
      reply := FollowCooldown(now);
    }

    /** Counts the epoch and purges the list. */
    method CloseEpoch()
      requires rounds.Length == NUM_STORED_ROUNDS && roundsHead < NUM_STORED_ROUNDS
      requires |clients| + |exitedClients| <= SOLANA_MAX_NUM_CLIENTS
      modifies this`progress, this`clients, this`exitedClients
      ensures View() == EpochOver(old(View()))
      ensures AllHealthy(clients)
    {
      AdvanceEpoch();
      MoveToExited(rounds[roundsHead].height);
    }

    /** The next epoch's data starts where the last round's ends. */
    method AdvanceEpoch()
      requires rounds.Length == NUM_STORED_ROUNDS && roundsHead < NUM_STORED_ROUNDS
      modifies this`progress
      ensures var dataIndex := rounds[roundsHead].dataIndex;
              progress == old(progress).(epochStartDataIndex := dataIndex + View().BatchAt(dataIndex),
                                         epoch := old(progress.epoch) + 1)
    {
      var round := rounds[roundsHead];
      var lastBatchSize := batchRule(round.dataIndex);
      progress := progress.(epochStartDataIndex := round.dataIndex + lastBatchSize);
      progress := progress.(epoch := progress.epoch + 1);
    }

    /** A finished epoch is followed by the pause that was asked for, or by waiting for the next one. */
    method FollowCooldown(now: nat) returns (reply: Reply)
      requires rounds.Length == NUM_STORED_ROUNDS
      requires runState == Cooldown && AllHealthy(clients)
      modifies this
      ensures AfterCooldown(old(View()), now) == Running(Step(View(), reply))
    {
      if pendingPause {
        WithdrawFromSucceedsIff(clients, 0);
        var ok := TryWithdrawAll();
        assert ok;
        ChangeRunState(now, Paused);
        pendingPause := false;
        coldStartEpoch := true;
      } else {
        BeginWaitingForMembers(now);
        coldStartEpoch := false;
      }
      return EpochEnd(true);
    }

    method DoTick(pending: Option<seq<NodeId>>, now: nat, seed: nat) returns (reply: Reply)
      requires Valid()
      modifies this, rounds
      ensures Valid()
      ensures Apply(hashes, old(View()), TickEvent(pending, now, seed)) == Running(Step(View(), reply))
    {
      TickKeepsInv(hashes, View(), pending, now, seed);
      match runState {
        case WaitingForMembers =>
          TickWaiting(pending, now);
          reply := Ticked;
        case Warmup =>
          reply := TickWarm(now, seed);
        case RoundTrain =>
          TickTrain(now);
          reply := Ticked;
        case RoundWitness =>
          reply := TickWitness(now, seed);
        case Cooldown =>
          reply := TickCool(now);
        case _ =>
          reply := Rejected(Halted);
      }
    }

    // ----- messages -----

    /** Whether a recorded witness is the sender; the caller answers for the indices up to it. */
    method Scan(witnesses: seq<Witness>, from: NodeId) returns (found: bool)
      requires AlreadyReported(witnesses, clients, from).Running?
      ensures AlreadyReported(witnesses, clients, from) == Running(found)
    {
      for i := 0 to |witnesses|
        invariant AlreadyReported(witnesses, clients, from) == AlreadyReported(witnesses[i..], clients, from)
      {
        assert witnesses[i..][0] == witnesses[i] && witnesses[i..][1..] == witnesses[i + 1..];
        if clients[witnesses[i].proof.index].id == from {
          return true;
        }
      }
      return false;
    }

    function Target(): nat
      reads this
    {
      if config.witnessNodes == 0 then
        if |clients| < SOLANA_MAX_NUM_WITNESSES then |clients| else SOLANA_MAX_NUM_WITNESSES
      else config.witnessNodes
    }

    /** A warmup message; the source needs the duplicate scan to stay within the client list. */
    method DoWarmupWitness(from: NodeId, w: Witness, now: nat, seed: nat) returns (reply: Reply)
      requires Valid()
      requires !Aborts(hashes, View(), WarmupWitnessEvent(from, w, now, seed))
      modifies this, rounds
      ensures Valid()
      ensures Apply(hashes, old(View()), WarmupWitnessEvent(from, w, now, seed)) == Running(Step(View(), reply))
    {
      WarmupWitnessPanicsIff(hashes, View(), from, w, now, seed);
      if runState == Uninitialized || runState == Finished || runState == Paused {
        return Rejected(Halted);
      }
      if runState == RoundTrain {
        return Accepted;
      }
      if runState != Warmup {
        return Rejected(InvalidRunState);
      }
      reply := RecordInWarmup(from, w, now, seed);
    }

    method RecordInWarmup(from: NodeId, w: Witness, now: nat, seed: nat) returns (reply: Reply)
      requires Valid() && runState == Warmup
      requires AddWarmupWitness(View(), from, w, now, seed).Running?
      modifies this, rounds
      ensures rounds.Length == NUM_STORED_ROUNDS
      ensures AddWarmupWitness(old(View()), from, w, now, seed) == Running(Step(View(), reply))
    {
      var round := rounds[roundsHead];
      AlreadyReportedMeaning(round.witnesses, clients, from);
      var duplicate := Scan(round.witnesses, from);
      if duplicate {
        return Rejected(DuplicateWitness);
      }
      if |round.witnesses| >= SOLANA_MAX_NUM_WITNESSES {
        return Rejected(WitnessesFull);
      }
      AppendWitness(w);
      if |round.witnesses| + 1 == Target() {
        BeginRoundTrain(now, seed, 0);
      }
      return Accepted;
    }

    method DoWitness(from: NodeId, w: Witness, now: nat) returns (reply: Reply)
      requires Valid()
      modifies this, rounds
      ensures Valid()
      ensures Apply(hashes, old(View()), WitnessEvent(from, w, now)) == Running(Step(View(), reply))
    {
      AddWitnessKeepsInv(hashes, View(), from, w, now);
      if runState == Uninitialized || runState == Finished || runState == Paused {
        return Rejected(Halted);
      }
      if runState != RoundWitness && runState != RoundTrain {
        return Rejected(InvalidRunState);
      }
      var round := rounds[roundsHead];
      var selected := New(hashes.sha, round.tieBreakerTasks, config.witnessNodes, config.verificationPercent,
                          round.clientsLen, round.randomSeed);
      assert selected == FromCoordinator(hashes, View(), 0);
      if selected.Failure? {
        return Rejected(selected.error);
      }
      var verified := selected.value.VerifyWitnessForClient(hashes.sha, from, w.proof, clients);
      if !verified || !w.proof.isWitness {
        return Rejected(InvalidWitness);
      }
      reply := Record(from, w, now);
    }

    method AppendWitness(w: Witness)
      requires rounds.Length == NUM_STORED_ROUNDS && roundsHead < NUM_STORED_ROUNDS
      modifies rounds
      ensures var round := old(rounds[roundsHead]);
              EpochView() == SetCurrentRound(old(EpochView()), round.(witnesses := round.witnesses + [w]))
    {
      rounds[roundsHead] := rounds[roundsHead].(witnesses := rounds[roundsHead].witnesses + [w]);
    }

    method Record(from: NodeId, w: Witness, now: nat) returns (reply: Reply)
      requires Valid() && InRound(View())
      modifies this, rounds
      ensures rounds.Length == NUM_STORED_ROUNDS
      ensures RecordWitness(old(View()), from, w, now) == Running(Step(View(), reply))
    {
      var round := rounds[roundsHead];
      AlreadyReportedMeaning(round.witnesses, clients, from);
      var duplicate := Scan(round.witnesses, from);
      if duplicate {
        return Rejected(DuplicateWitness);
      }
      if |round.witnesses| >= SOLANA_MAX_NUM_WITNESSES {
        return Rejected(WitnessesFull);
      }
      AppendWitness(w);
      if |round.witnesses| + 1 == Target() && runState != RoundWitness {
        ChangeRunState(now, RoundWitness);
      }
      return Accepted;
    }

    method ScoreOf(id: NodeId, witnesses: seq<Witness>) returns (score: nat)
      ensures score == HealthScore(hashes, id, witnesses)
    {
      var hash := hashes.sha(id);
      score := 0;
      for i := 0 to |witnesses|
        invariant score == HealthScore(hashes, id, witnesses[..i])
      {
        assert witnesses[..i + 1][..i] == witnesses[..i];
        if Contains(hashes.fnv, witnesses[i].participantBloom, hash) {
          score := score + 1;
        }
      }
      assert witnesses[..|witnesses|] == witnesses;
    }

    /** A health check; the source has no verdict for a verifier. */
    method DoHealthCheck(checks: HealthChecks) returns (reply: Reply)
      requires Valid()
      requires !Aborts(hashes, View(), HealthCheckEvent(checks))
      modifies this`clients
      ensures Valid()
      ensures Apply(hashes, old(View()), HealthCheckEvent(checks)) == Running(Step(View(), reply))
    {
      ApplyKeepsInv(hashes, View(), HealthCheckEvent(checks));
      if runState == Uninitialized || runState == Finished || runState == Paused {
        return Rejected(Halted);
      }
      if roundsHead >= NUM_STORED_ROUNDS {
        return Rejected(NoActiveRound);
      }
      if rounds[roundsHead].height < 2 {
        return Rejected(InvalidHealthCheck);
      }
      var rejection := Examine(checks);
      if rejection.Some? {
        return Rejected(rejection.value);
      }
      AcceptedChecksAreInRange(hashes, View(), checks);
      var dropped := DropAll(checks);
      return DroppedClients(dropped);
    }

    method Examine(checks: HealthChecks) returns (rejection: Option<CoordinatorError>)
      requires Valid() && FirstRejection(hashes, View(), checks).Running?
      requires HealthCheckable(View())
      ensures FirstRejection(hashes, View(), checks) == Running(rejection)
    {
      for i := 0 to |checks|
        invariant FirstRejection(hashes, View(), checks) == FirstRejection(hashes, View(), checks[i..])
      {
        assert checks[i..][0] == checks[i] && checks[i..][1..] == checks[i + 1..];
        var verdict := Judge(checks[i].0, checks[i].1);
        match verdict {
          case Failure(error) => return Some(error);
          case Success(healthy) =>
            if healthy {
              return Some(InvalidHealthCheck);
            }
        }
      }
      return None;
    }

    method Judge(id: NodeId, proof: CommitteeProof) returns (verdict: Result<bool, CoordinatorError>)
      requires Valid() && HealthCheckable(View())
      requires IsHealthy(hashes, View(), id, proof).Running?
      ensures IsHealthy(hashes, View(), id, proof) == Running(verdict)
    {
      PreviousIsClosed(View());
      var round := rounds[if roundsHead == 0 then NUM_STORED_ROUNDS - 1 else roundsHead - 1];
      assert PreviousRound(EpochView()) == Some(round);
      if proof.index >= round.clientsLen {
        return Failure(InvalidCommitteeProof);
      }
      var client := HistoricalClient(proof.index, round.clientsLen);
      if client.None? {
        return Failure(InvalidCommitteeProof);
      }
      var selected := New(hashes.sha, round.tieBreakerTasks, config.witnessNodes, config.verificationPercent,
                          round.clientsLen, round.randomSeed);
      assert selected == FromCoordinator(hashes, View(), -1);
      if selected.Failure? {
        return Failure(selected.error);
      }
      if client.value.id != id
         || !selected.value.VerifyCommitteeForClient(hashes.sha, client.value.id, proof, clients)
      {
        return Failure(InvalidCommitteeProof);
      }
      assert proof.committee == Trainer;
      var healthy := TrainerIsHealthy(client.value.id);
      return Success(healthy);
    }

    method TrainerIsHealthy(id: NodeId) returns (healthy: bool)
      requires Valid() && HealthCheckable(View())
      ensures TrainerHealthy(hashes, View(), id) == Running(Success(healthy))
    {
      PreviousIsClosed(View());
      var round := rounds[if roundsHead == 0 then NUM_STORED_ROUNDS - 1 else roundsHead - 1];
      assert PreviousRound(EpochView()) == Some(round);
      var score := ScoreOf(id, round.witnesses);
      var quorum := WitnessQuorum(|round.witnesses|);
      healthy := score >= quorum;
    }

    method HistoricalClient(n: nat, prevClientsLen: nat) returns (client: Option<Client>)
      requires rounds.Length == NUM_STORED_ROUNDS
      ensures client == ClientAtHistoricalIndex(EpochView(), n, prevClientsLen)
    {
      if n < |clients| {
        return Some(clients[n]);
      } else if n < prevClientsLen {
        var offset := prevClientsLen - n - 1;
        if offset < |exitedClients| {
          return Some(exitedClients[|exitedClients| - 1 - offset]);
        }
      }
      return None;
    }

    method DropAll(checks: HealthChecks) returns (dropped: nat)
      requires forall k | 0 <= k < |checks| :: checks[k].1.index < |clients|
      modifies this`clients
      ensures DropNamed(old(clients), checks) == Running((clients, dropped))
    {
      dropped := 0;
      for i := 0 to |checks|
        invariant DropNamed(old(clients), checks[..i]) == Running((clients, dropped))
        invariant |clients| == |old(clients)|
      {
        assert checks[..i + 1][..i] == checks[..i];
        var index := checks[i].1.index;
        if clients[index].state == Healthy {
          clients := clients[index := clients[index].(state := Dropped)];
          dropped := dropped + 1;
        }
      }
      assert checks[..|checks|] == checks;
    }

    // ----- leaving, pausing, resuming -----

    method DoWithdraw(index: nat) returns (reply: Reply)
      requires Valid()
      modifies this`clients
      ensures Valid()
      ensures Apply(hashes, old(View()), WithdrawEvent(index)) == Running(Step(View(), reply))
    {
      WithdrawKeepsInv(hashes, View(), index);
      var ok := TryWithdraw(index);
      return if ok then Accepted else Rejected(InvalidWithdraw);
    }

    method DoWithdrawAll() returns (reply: Reply)
      requires Valid()
      modifies this`clients
      ensures Valid()
      ensures Apply(hashes, old(View()), WithdrawAllEvent) == Running(Step(View(), reply))
    {
      WithdrawAllKeepsInv(hashes, View());
      var ok := TryWithdrawAll();
      return if ok then Accepted else Rejected(InvalidWithdraw);
    }

    /** Between epochs a pause withdraws everybody and takes effect at once. */
    method PauseNow(now: nat) returns (reply: Reply)
      requires rounds.Length == NUM_STORED_ROUNDS
      requires runState == WaitingForMembers || runState == Warmup
      modifies this
      ensures Pause(old(View()), now) == Running(Step(View(), reply))
    {
      var ok := TryWithdrawAll();
      if !ok {
        return Rejected(InvalidWithdraw);
      }
      ChangeRunState(now, Paused);
      coldStartEpoch := true;
      return Accepted;
    }

    method DoPause(now: nat) returns (reply: Reply)
      requires Valid()
      modifies this
      ensures Valid()
      ensures Apply(hashes, old(View()), PauseEvent(now)) == Running(Step(View(), reply))
    {
      PauseKeepsInv(hashes, View(), now);
      if runState == Uninitialized || runState == Finished || runState == Paused {
        return Rejected(Halted);
      }
      if runState == WaitingForMembers || runState == Warmup {
        reply := PauseNow(now);
      } else {
        RequestPause();
        return Accepted;
      }
    }

    method RequestPause()
      requires rounds.Length == NUM_STORED_ROUNDS
      modifies this`pendingPause
      ensures View() == old(View()).(pendingPause := true)
    {
      pendingPause := true;
    }

    method DoResume(now: nat) returns (reply: Reply)
      requires Valid()
      modifies this
      ensures Valid()
      ensures Apply(hashes, old(View()), ResumeEvent(now)) == Running(Step(View(), reply))
    {
      ResumeKeepsInv(hashes, View(), now);
      if runState != Paused {
        return Rejected(CannotResume);
      }
      BeginWaitingForMembers(now);
      return Accepted;
    }
  }
}
