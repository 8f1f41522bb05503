/** Ticks, withdrawals, pauses and resumes: none of them panics, and each keeps the invariant. */
module CoordinatorSteps {
  import opened Wrappers
  import opened Protocol
  import opened CoordinatorModel
  import opened CoordinatorInvariant
  import opened CoordinatorWitnesses

  // ----- changes that touch only the health of clients -----

  lemma ClientHealthKeepsInv(h: Hashes, s: State, clients: seq<Client>)
    requires Inv(h, s) && SameIds(s.epoch.clients, clients)
    ensures Inv(h, s.(epoch := s.epoch.(clients := clients)))
  {
    var t := s.(epoch := s.epoch.(clients := clients));
    RingIgnoresClients(s, t);
    if InRound(s) {
      assert Behind(t.epoch, 0) == Behind(s.epoch, 0);
      assert WitnessSelection(h, t, Behind(t.epoch, 0)) == WitnessSelection(h, s, Behind(s.epoch, 0));
      assert WitnessesOk(h, t, Behind(t.epoch, 0));
    }
  }

  lemma WithdrawKeepsInv(h: Hashes, s: State, index: nat)
    requires Inv(h, s)
    ensures Inv(h, Withdraw(s, index).state)
  {
    if CanWithdraw(s.epoch.clients, index) {
      ClientHealthKeepsInv(h, s, WithdrawAt(s.epoch.clients, index));
    }
  }

  lemma WithdrawAllKeepsInv(h: Hashes, s: State)
    requires Inv(h, s)
    ensures Inv(h, WithdrawAll(s).state)
  {
    WithdrawFromKeepsIds(s.epoch.clients, 0);
    ClientHealthKeepsInv(h, s, WithdrawFrom(s.epoch.clients, 0).0);
  }

  lemma PendingPauseKeepsInv(h: Hashes, s: State)
    requires Inv(h, s)
    ensures Inv(h, s.(pendingPause := true))
  {
    var t := s.(pendingPause := true);
    RingIgnoresClients(s, t);
    assert InRound(s) ==> WitnessesOk(h, t, Behind(t.epoch, 0));
  }

  lemma PauseKeepsInv(h: Hashes, s: State, now: nat)
    requires Inv(h, s)
    ensures Pause(s, now).Running? && Inv(h, Pause(s, now).value.state)
  {
    if s.IsActive() {
      PendingPauseKeepsInv(h, s);
    } else if !s.IsHalted() {
      WithdrawAllKeepsInv(h, s);
      RingIgnoresClients(s, Pause(s, now).value.state);
    }
  }

  /**
  A pause between epochs succeeds exactly when every listed client is healthy. One that is rejected
  leaves the state alone exactly when the first client is already unhealthy; in any other case the
  healthy clients before the first unhealthy one have been withdrawn all the same.
  */
  lemma PauseIsAtomicIff(h: Hashes, s: State, now: nat)
    requires Inv(h, s) && (s.runState == WaitingForMembers || s.runState == Warmup)
    ensures Pause(s, now).Running?
    ensures Pause(s, now).value.reply == Accepted <==> AllHealthy(s.epoch.clients)
    ensures !AllHealthy(s.epoch.clients) ==>
              && Pause(s, now).value.reply == Rejected(InvalidWithdraw)
              && (Pause(s, now).value.state == s <==> s.epoch.clients[0].state != Healthy)
  {
    WithdrawFromSucceedsIff(s.epoch.clients, 0);
    if CanWithdraw(s.epoch.clients, 0) {
      var next := WithdrawAt(s.epoch.clients, 0);
      WithdrawFromSucceedsIff(next, 1);
      assert WithdrawFrom(s.epoch.clients, 0) == WithdrawFrom(next, 1);
      assert WithdrawFrom(next, 1).0[0] == next[0];
    }
  }

  lemma ResumeKeepsInv(h: Hashes, s: State, now: nat)
    requires Inv(h, s)
    ensures Resume(s, now).Running? && Inv(h, Resume(s, now).value.state)
  {
    RingIgnoresClients(s, Resume(s, now).value.state);
  }

  // ----- admitting an epoch -----

  lemma {:induction false} AdmittedSize(pending: seq<NodeId>)
    ensures |Admitted(pending)|
            == if |pending| < SOLANA_MAX_NUM_CLIENTS then |pending| else SOLANA_MAX_NUM_CLIENTS
    ensures forall i | 0 <= i < |Admitted(pending)| :: Admitted(pending)[i] == NewClient(pending[i])
  {
    if pending != [] {
      AdmittedSize(pending[..|pending| - 1]);
    }
  }

  lemma TickWaitingKeepsInv(h: Hashes, s: State, pending: Option<seq<NodeId>>, now: nat)
    requires Inv(h, s) && s.runState == WaitingForMembers
    ensures TickWaitingForMembers(s, pending, now).Running?
    ensures Inv(h, TickWaitingForMembers(s, pending, now).value.state)
  {
    if pending.Some? {
      AdmittedSize(pending.value);
      PurgeCannotOverflow(s.epoch, Behind(s.epoch, 0).height);
    }
  }

  // ----- warmup -----

  /** A round that starts in a live epoch satisfies the training invariant. */
  lemma RoundStartedKeepsInv(h: Hashes, s: State, now: nat, seed: nat)
    requires s.progress.step >= 1 && s.progress.step < s.config.totalSteps
    requires |s.epoch.clients| + |s.epoch.exitedClients| <= SOLANA_MAX_NUM_CLIENTS
    requires RingOk(s) && ReadyToTrain(s)
    requires |s.epoch.clients| >= s.config.minClients
    requires s.epoch.lastStep == 0 || s.progress.step < s.epoch.lastStep <= s.progress.step + 2
    requires s.progress.step == s.epoch.startStep + RoundToStart(s, 0).height
    requires RoundToStart(s, 0).dataIndex == StepCursor(s)
    ensures Inv(h, RoundStarted(s, now, seed))
  {
    var t := RoundStarted(s, now, seed);
    StartRoundTrainKeepsRing(s, now, seed);
    assert Behind(t.epoch, 0) == RoundToStart(s, seed);
    assert WitnessesOk(h, t, Behind(t.epoch, 0));
    assert t.epoch.firstRound == (Behind(t.epoch, 0).height == 0);
  }

  lemma WarmupCanTrain(h: Hashes, s: State, now: nat, seed: nat)
    requires Inv(h, s) && s.runState == Warmup
    ensures StartRoundTrain(s, now, seed, 0) == Running(RoundStarted(s, now, seed))
    ensures Inv(h, RoundStarted(s, now, seed))
  {
    StartRoundTrainRuns(s, now, seed);
    RoundStartedKeepsInv(h, s, now, seed);
  }

  lemma TickWarmupKeepsInv(h: Hashes, s: State, now: nat, seed: nat)
    requires Inv(h, s) && s.runState == Warmup
    ensures TickWarmup(s, now, seed).Running?
    ensures Inv(h, TickWarmup(s, now, seed).value.state)
  {
    if s.TimedOut(now, s.config.warmupTime) {
      WarmupCanTrain(h, s, now, seed);
    } else {
      PurgeCannotOverflow(s.epoch, 0);
      var t := s.(epoch := MoveClientsToExited(s.epoch, 0).value);
      RingIgnoresClients(s, t);
      RingIgnoresClients(s, TickWarmup(s, now, seed).value.state);
    }
  }

  /**
  A warmup message panics exactly when the scan for duplicates meets an index that no longer
  names a client before it meets the sender; in every other case it runs and keeps the invariant.
  */
  lemma WarmupWitnessPanicsIff(h: Hashes, s: State, from: NodeId, w: Witness, now: nat, seed: nat)
    requires Inv(h, s)
    ensures AddWarmupWitness(s, from, w, now, seed).Panicked?
            <==> s.runState == Warmup && ScanRunsOff(Behind(s.epoch, 0).witnesses, s.epoch.clients, from)
    ensures AddWarmupWitness(s, from, w, now, seed).Running? ==>
              Inv(h, AddWarmupWitness(s, from, w, now, seed).value.state)
  {
    if s.runState == Warmup {
      var r := Behind(s.epoch, 0);
      AlreadyReportedMeaning(r.witnesses, s.epoch.clients, from);
      var s1 := s.(epoch := SetCurrentRound(s.epoch, r.(witnesses := r.witnesses + [w])));
      RingIgnoresCurrentWitnesses(s, s1, r.witnesses + [w]);
      WarmupCanTrain(h, s1, now, seed);
    }
  }

  // ----- rounds -----

  lemma TickRoundTrainKeepsInv(h: Hashes, s: State, now: nat)
    requires Inv(h, s) && s.runState == RoundTrain
    ensures TickRoundTrain(s, now).Running?
    ensures Inv(h, TickRoundTrain(s, now).value.state)
  {
    var t := TickRoundTrain(s, now).value.state;
    RingIgnoresClients(s, t);
    assert WitnessesOk(h, t, Behind(t.epoch, 0));
  }

  /** The state in which a closing round decides what comes next. */
  function RoundClosing(s: State): State
    requires s.epoch.roundsHead < NUM_STORED_ROUNDS
    requires |s.epoch.clients| + |s.epoch.exitedClients| <= SOLANA_MAX_NUM_CLIENTS
  {
    PurgeCannotOverflow(s.epoch, Behind(s.epoch, 0).height);
    var epoch := MoveClientsToExited(s.epoch.(firstRound := false), Behind(s.epoch, 0).height).value;
    s.(epoch := epoch, progress := s.progress.(step := s.progress.step + 1))
  }

  /** What holds at that moment, whichever way the decision goes. */
  predicate ClosingOk(s: State) {
    && s.progress.step >= 2
    && s.runState == RoundWitness
    && s.progress.step <= s.config.totalSteps
    && |s.epoch.clients| + |s.epoch.exitedClients| <= SOLANA_MAX_NUM_CLIENTS
    && RingOk(s)
    && CoolingDown(s)
    && !s.epoch.firstRound
    && |s.epoch.clients| <= Behind(s.epoch, 0).clientsLen
    && (s.epoch.lastStep == 0 || s.progress.step <= s.epoch.lastStep <= s.progress.step + 2)
  }

  lemma RoundClosingOk(h: Hashes, s: State)
    requires Inv(h, s) && s.runState == RoundWitness
    ensures ClosingOk(RoundClosing(s))
    ensures Behind(RoundClosing(s).epoch, 0) == Behind(s.epoch, 0)
    ensures AllHealthy(RoundClosing(s).epoch.clients)
    ensures MoveClientsToExited(s.epoch.(firstRound := false), Behind(s.epoch, 0).height)
            == Running(RoundClosing(s).epoch)
  {
    PurgeCannotOverflow(s.epoch.(firstRound := false), Behind(s.epoch, 0).height);
    RingIgnoresClients(s, RoundClosing(s));
  }

  lemma CooldownStartsOk(h: Hashes, s: State, now: nat)
    requires ClosingOk(s)
    ensures StartCooldown(s, now).Running?
    ensures Inv(h, StartCooldown(s, now).value)
    ensures StartCooldown(s, now).value.runState == Cooldown
    ensures StartCooldown(s, now).value.progress == s.progress
  {
    RingIgnoresCurrentWitnesses(s, StartCooldown(s, now).value, []);
  }

  lemma NextRoundStartsOk(h: Hashes, s: State, now: nat, seed: nat)
    requires ClosingOk(s) && s.progress.step < s.config.totalSteps
    requires |s.epoch.clients| >= s.config.minClients
    requires Closed(s.config, Behind(s.epoch, 0))
    requires s.epoch.lastStep == 0 || s.progress.step < s.epoch.lastStep
    ensures StartRoundTrain(s, now, seed, 0) == Running(RoundStarted(s, now, seed))
    ensures Inv(h, RoundStarted(s, now, seed))
  {
    StartRoundTrainRuns(s, now, seed);
    RoundStartedKeepsInv(h, s, now, seed);
  }

  lemma TickRoundWitnessKeepsInv(h: Hashes, s: State, now: nat, seed: nat)
    requires Inv(h, s) && s.runState == RoundWitness
    ensures TickRoundWitness(s, now, seed).Running?
    ensures Inv(h, TickRoundWitness(s, now, seed).value.state)
    ensures TickRoundWitness(s, now, seed).value.reply == Ticked
  {
    if s.TimedOut(now, s.config.roundWitnessTime) {
      var s1 := RoundClosing(s);
      RoundClosingOk(h, s);
      if Behind(s.epoch, 0).witnesses == [] {
        EmptyRoundCoolsDown(h, s1, now);
      } else {
        RoundDecides(h, s1, now, seed);
      }
    }
  }

  /** A round that times out closes, and its successor is decided on what is left. */
  lemma ClosingIsAfterClosing(h: Hashes, s: State, now: nat, seed: nat)
    requires Inv(h, s) && s.runState == RoundWitness && s.TimedOut(now, s.config.roundWitnessTime)
    ensures TickRoundWitness(s, now, seed)
            == AfterClosing(RoundClosing(s), |Behind(s.epoch, 0).witnesses|, now, seed)
    ensures RoundClosing(s).progress == s.progress.(step := s.progress.step + 1)
    ensures RoundClosing(s).config == s.config && RoundClosing(s).sequenceLength == s.sequenceLength
    ensures RoundClosing(s).batchRule == s.batchRule
    ensures RoundClosing(s).epoch.lastStep == s.epoch.lastStep
    ensures RoundClosing(s).runState == s.runState && RoundClosing(s).pendingPause == s.pendingPause
  {
    RoundClosingOk(h, s);
  }

  /** What every decision after a closing leaves as it was. */
  ghost predicate DecidedFrom(s: State, t: State) {
    && (t.runState == Cooldown || t.runState == RoundTrain)
    && t.progress == s.progress && t.config == s.config
    && t.sequenceLength == s.sequenceLength && t.batchRule == s.batchRule && t.pendingPause == s.pendingPause
    && SameIds(s.epoch.clients, t.epoch.clients)
    && t.epoch.exitedClients == s.epoch.exitedClients
    && (s.epoch.lastStep != 0 ==> t.epoch.lastStep == s.epoch.lastStep)
  }

  lemma EmptyRoundDecides(s: State, now: nat, seed: nat)
    requires s.runState == RoundWitness && s.epoch.roundsHead < NUM_STORED_ROUNDS
    requires AllHealthy(s.epoch.clients)
    ensures AfterClosing(s, 0, now, seed).Running?
    ensures DecidedFrom(s, AfterClosing(s, 0, now, seed).value.state)
    ensures var t := AfterClosing(s, 0, now, seed).value.state;
            t.runState == Cooldown && t.epoch.lastStep == s.epoch.lastStep
  {
    WithdrawFromSucceedsIff(s.epoch.clients, 0);
    WithdrawFromKeepsIds(s.epoch.clients, 0);
  }

  lemma WitnessedRoundDecides(s: State, numWitnesses: nat, now: nat, seed: nat)
    requires s.runState == RoundWitness && s.epoch.roundsHead < NUM_STORED_ROUNDS
    requires numWitnesses > 0 && AfterClosing(s, numWitnesses, now, seed).Running?
    ensures var t := AfterClosing(s, numWitnesses, now, seed).value.state;
            && DecidedFrom(s, t)
            && (s.epoch.lastStep != 0 && s.progress.step == s.epoch.lastStep ==> t.runState == Cooldown)
  {
    StartRoundTrainRuns(s.(epoch := s.epoch.(lastStep := ChooseLastStep(s, now))), now, seed);
  }

  /** Whatever is decided: the step stands, a last step once set stands, and reaching it ends the epoch. */
  lemma AfterClosingShape(s: State, numWitnesses: nat, now: nat, seed: nat)
    requires s.runState == RoundWitness && s.epoch.roundsHead < NUM_STORED_ROUNDS
    requires AllHealthy(s.epoch.clients)
    requires AfterClosing(s, numWitnesses, now, seed).Running?
    ensures var t := AfterClosing(s, numWitnesses, now, seed).value.state;
            && DecidedFrom(s, t)
            && (s.epoch.lastStep != 0 && s.progress.step == s.epoch.lastStep ==> t.runState == Cooldown)
  {
    if numWitnesses == 0 {
      EmptyRoundDecides(s, now, seed);
    } else {
      WitnessedRoundDecides(s, numWitnesses, now, seed);
    }
  }

  /** The two together, for the closing of a reachable round. */
  lemma ClosingShape(h: Hashes, s: State, now: nat, seed: nat)
    requires Inv(h, s) && s.runState == RoundWitness && s.TimedOut(now, s.config.roundWitnessTime)
    ensures TickRoundWitness(s, now, seed).Running?
    ensures var t := TickRoundWitness(s, now, seed).value.state;
            && (t.runState == Cooldown || t.runState == RoundTrain)
            && t.progress == s.progress.(step := s.progress.step + 1)
            && t.config == s.config && t.sequenceLength == s.sequenceLength && t.batchRule == s.batchRule
            && t.pendingPause == s.pendingPause
            && SameIds(RoundClosing(s).epoch.clients, t.epoch.clients)
            && t.epoch.exitedClients == RoundClosing(s).epoch.exitedClients
            && (s.epoch.lastStep != 0 ==>
                  && t.epoch.lastStep == s.epoch.lastStep
                  && (s.progress.step + 1 == s.epoch.lastStep ==> t.runState == Cooldown))
  {
    TickRoundWitnessKeepsInv(h, s, now, seed);
    ClosingIsAfterClosing(h, s, now, seed);
    RoundClosingOk(h, s);
    AfterClosingShape(RoundClosing(s), |Behind(s.epoch, 0).witnesses|, now, seed);
  }

  /** Withdrawing everybody cannot fail after a purge. */
  lemma EmptyRoundCoolsDown(h: Hashes, s: State, now: nat)
    requires ClosingOk(s) && AllHealthy(s.epoch.clients)
    ensures WithdrawFrom(s.epoch.clients, 0).1
    ensures var t := s.(epoch := s.epoch.(clients := WithdrawFrom(s.epoch.clients, 0).0));
            StartCooldown(t, now).Running? && Inv(h, StartCooldown(t, now).value)
  {
    WithdrawFromSucceedsIff(s.epoch.clients, 0);
    var t := s.(epoch := s.epoch.(clients := WithdrawFrom(s.epoch.clients, 0).0));
    RingIgnoresClients(s, t);
    CooldownStartsOk(h, t, now);
  }

  lemma RoundDecides(h: Hashes, s: State, now: nat, seed: nat)
    requires ClosingOk(s) && Behind(s.epoch, 0).witnesses != []
    ensures var t := s.(epoch := s.epoch.(lastStep := ChooseLastStep(s, now)));
            if t.epoch.lastStep != 0 && t.progress.step == t.epoch.lastStep then
              StartCooldown(t, now).Running? && Inv(h, StartCooldown(t, now).value)
            else
              var ends := RunMustCoolDown(t, |Behind(s.epoch, 0).witnesses|);
              && ends.Running?
              && (ends.value ==> StartCooldown(t, now).Running? && Inv(h, StartCooldown(t, now).value))
              && (!ends.value ==>
                    StartRoundTrain(t, now, seed, 0) == Running(RoundStarted(t, now, seed))
                    && Inv(h, RoundStarted(t, now, seed)))
  {
    var t := s.(epoch := s.epoch.(lastStep := ChooseLastStep(s, now)));
    RingIgnoresClients(s, t);
    assert ClosingOk(t);
    CooldownStartsOk(h, t, now);
    if !(t.epoch.lastStep != 0 && t.progress.step == t.epoch.lastStep)
       && RunMustCoolDown(t, |Behind(s.epoch, 0).witnesses|) == Running(false)
    {
      assert Closed(t.config, Behind(t.epoch, 0));
      NextRoundStartsOk(h, t, now, seed);
    }
  }

  // ----- cooldown -----

  /** An epoch that is over can always be left: the withdrawal before a pause cannot fail after a purge. */
  lemma AfterCooldownKeepsInv(h: Hashes, s: State, now: nat)
    requires s.runState == Cooldown && 1 <= s.progress.step <= s.config.totalSteps
    requires |s.epoch.clients| + |s.epoch.exitedClients| <= SOLANA_MAX_NUM_CLIENTS
    requires AllHealthy(s.epoch.clients) && RingOk(s) && Waiting(s)
    ensures AfterCooldown(s, now).Running?
    ensures Inv(h, AfterCooldown(s, now).value.state)
    ensures AfterCooldown(s, now).value.reply == EpochEnd(true)
  {
    WithdrawFromSucceedsIff(s.epoch.clients, 0);
    RingIgnoresClients(s, AfterCooldown(s, now).value.state);
  }

  /** The state in which an epoch that is over decides what comes next. */
  function EpochOver(s: State): State
    requires s.epoch.roundsHead < NUM_STORED_ROUNDS
    requires |s.epoch.clients| + |s.epoch.exitedClients| <= SOLANA_MAX_NUM_CLIENTS
  {
    var round := Behind(s.epoch, 0);
    PurgeCannotOverflow(s.epoch, round.height);
    s.(progress := s.progress.(epochStartDataIndex := round.dataIndex + s.BatchAt(round.dataIndex),
                               epoch := s.progress.epoch + 1),
       epoch := MoveClientsToExited(s.epoch, round.height).value)
  }

  lemma EpochOverOk(h: Hashes, s: State)
    requires Inv(h, s) && s.runState == Cooldown
    ensures var t := EpochOver(s);
            && t.runState == Cooldown && 1 <= t.progress.step <= t.config.totalSteps
            && |t.epoch.clients| + |t.epoch.exitedClients| <= SOLANA_MAX_NUM_CLIENTS
            && AllHealthy(t.epoch.clients) && RingOk(t) && Waiting(t)
  {
    PurgeCannotOverflow(s.epoch, Behind(s.epoch, 0).height);
    RingIgnoresClients(s, EpochOver(s));
  }

  lemma CooldownIsAfterCooldown(h: Hashes, s: State, now: nat)
    requires Inv(h, s) && s.runState == Cooldown && s.TimedOut(now, s.config.cooldownTime)
    ensures TickCooldown(s, now) == AfterCooldown(EpochOver(s), now)
    ensures EpochOver(s).runState == Cooldown && AllHealthy(EpochOver(s).epoch.clients)
  {
    PurgeCannotOverflow(s.epoch, Behind(s.epoch, 0).height);
  }

  lemma TickCooldownKeepsInv(h: Hashes, s: State, now: nat)
    requires Inv(h, s) && s.runState == Cooldown
    ensures TickCooldown(s, now).Running?
    ensures Inv(h, TickCooldown(s, now).value.state)
    ensures TickCooldown(s, now).value.reply
            == if s.TimedOut(now, s.config.cooldownTime) then EpochEnd(true) else Ticked
  {
    if s.TimedOut(now, s.config.cooldownTime) {
      EpochOverOk(h, s);
      AfterCooldownKeepsInv(h, EpochOver(s), now);
      CooldownIsAfterCooldown(h, s, now);
    }
  }

  lemma TickKeepsInv(h: Hashes, s: State, pending: Option<seq<NodeId>>, now: nat, seed: nat)
    requires Inv(h, s)
    ensures Tick(s, pending, now, seed).Running?
    ensures Inv(h, Tick(s, pending, now, seed).value.state)
  {
    match s.runState
    case WaitingForMembers => TickWaitingKeepsInv(h, s, pending, now);
    case Warmup => TickWarmupKeepsInv(h, s, now, seed);
    case RoundTrain => TickRoundTrainKeepsInv(h, s, now);
    case RoundWitness => TickRoundWitnessKeepsInv(h, s, now, seed);
    case Cooldown => TickCooldownKeepsInv(h, s, now);
    case Uninitialized =>
    case Finished =>
    case Paused =>
  }
}
