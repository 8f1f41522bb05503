/** When the coordinator goes on, when it stops, and what it records about that. */
module CoordinatorDecisions {
  import opened Wrappers
  import opened Protocol
  import opened CoordinatorModel
  import opened CoordinatorInvariant
  import opened CoordinatorWitnesses
  import opened CoordinatorSteps
  import opened CoordinatorHealth
  import opened CoordinatorRuns

  // ----- what follows a round -----

  /** The last step of the epoch, were it decided at the end of this round. */
  function LastStepAt(s: State, now: nat): nat {
    if s.epoch.lastStep == 0 && s.EpochTimedOut(now) then s.progress.step + 3 else s.epoch.lastStep
  }

  /** Everything that another round needs. */
  predicate MayContinue(s: State, now: nat)
    requires s.epoch.roundsHead < NUM_STORED_ROUNDS
  {
    && Closed(s.config, Behind(s.epoch, 0))
    && |Staying(s.epoch.clients)| >= s.config.minClients
    && s.progress.step + 1 < s.config.totalSteps
    && !s.pendingPause
    && s.progress.step + 1 != LastStepAt(s, now)
  }

  predicate AllWithdrawn(clients: seq<Client>) {
    forall i | 0 <= i < |clients| :: clients[i].state == Withdrawn
  }

  lemma DecisionAfterClosing(s: State, numWitnesses: nat, now: nat, seed: nat)
    requires s.runState == RoundWitness && s.epoch.roundsHead < NUM_STORED_ROUNDS && s.progress.step >= 2
    requires numWitnesses > 0
    ensures AfterClosing(s, numWitnesses, now, seed).Running?
    ensures var t := AfterClosing(s, numWitnesses, now, seed).value.state;
            && t.epoch.lastStep == ChooseLastStep(s, now)
            && t.epoch.clients == s.epoch.clients
            && t.epoch.roundsHead < NUM_STORED_ROUNDS && Behind(t.epoch, 0).witnesses == []
            && (t.runState == RoundTrain ==> Behind(t.epoch, 0).randomSeed == seed)
            && (t.runState == RoundTrain <==>
                  && s.progress.step != ChooseLastStep(s, now)
                  && |s.epoch.clients| >= s.config.minClients
                  && numWitnesses >= Quorum(s.config, numWitnesses).value
                  && s.progress.step < s.config.totalSteps
                  && !s.pendingPause)
  {
    StartRoundTrainRuns(s.(epoch := s.epoch.(lastStep := ChooseLastStep(s, now))), now, seed);
  }

  /**
  A round that times out is followed by another exactly when it had a quorum of witnesses, enough
  healthy clients are left, steps remain, no pause is pending and the last step is not reached;
  otherwise by the cooldown. Whichever way it goes, an epoch that has timed out then has its last step set,
  unless nobody witnessed the round. The unhealthy clients leave; when nobody witnessed the round,
  everybody else is withdrawn.
  */
  lemma ClosingDecision(h: Hashes, s: State, now: nat, seed: nat)
    requires Inv(h, s) && s.runState == RoundWitness && s.TimedOut(now, s.config.roundWitnessTime)
    ensures TickRoundWitness(s, now, seed).Running?
    ensures var t := TickRoundWitness(s, now, seed).value.state;
            && (t.runState == RoundTrain <==> MayContinue(s, now))
            && (t.runState == Cooldown <==> !MayContinue(s, now))
            && t.epoch.lastStep == (if Behind(s.epoch, 0).witnesses == [] then s.epoch.lastStep else LastStepAt(s, now))
            && (t.runState == RoundTrain ==>
                  && t.epoch.roundsHead < NUM_STORED_ROUNDS
                  && Behind(t.epoch, 0).randomSeed == seed && Behind(t.epoch, 0).witnesses == [])
            && (if Behind(s.epoch, 0).witnesses == []
                then SameIds(t.epoch.clients, Staying(s.epoch.clients)) && AllWithdrawn(t.epoch.clients)
                else t.epoch.clients == Staying(s.epoch.clients))
  {
    var s1 := RoundClosing(s);
    ClosingShape(h, s, now, seed);
    ClosingIsAfterClosing(h, s, now, seed);
    RoundClosingOk(h, s);
    assert s1.epoch.clients == Staying(s.epoch.clients);
    assert ChooseLastStep(s1, now) == LastStepAt(s, now);
    if Behind(s.epoch, 0).witnesses == [] {
      EmptyRoundDecides(s1, now, seed);
      WithdrawFromSucceedsIff(s1.epoch.clients, 0);
    } else {
      DecisionAfterClosing(s1, |Behind(s.epoch, 0).witnesses|, now, seed);
    }
  }

  lemma CooldownPauses(h: Hashes, s: State, now: nat)
    requires Inv(h, s) && s.pendingPause && s.runState == Cooldown
    requires s.TimedOut(now, s.config.cooldownTime)
    ensures TickCooldown(s, now).Running?
    ensures var t := TickCooldown(s, now).value.state;
            && t.runState == Paused && !t.pendingPause && t.epoch.coldStartEpoch
            && AllWithdrawn(t.epoch.clients)
  {
    TickCooldownKeepsInv(h, s, now);
    EpochOverOk(h, s);
    PurgeCannotOverflow(s.epoch, Behind(s.epoch, 0).height);
    WithdrawFromSucceedsIff(EpochOver(s).epoch.clients, 0);
    assert TickCooldown(s, now) == AfterCooldown(EpochOver(s), now);
  }

  // ----- the other decisions -----

  /** Enough clients are pending, and the extra time for more of them is over. */
  predicate MayAdmit(s: State, pending: Option<seq<NodeId>>, now: nat) {
    && pending.Some?
    && AsU16(|pending.value|) >= s.config.initMinClients
    && s.TimedOut(now, s.config.waitingForMembersExtraTime)
  }

  /**
  A waiting coordinator opens an epoch exactly when it may. The epoch then has the first of the pending
  clients, in order and healthy, as many as fit, and starts at the current step and time with nothing
  else in it; until then nothing changes.
  */
  lemma AdmissionDecision(h: Hashes, s: State, pending: Option<seq<NodeId>>, now: nat)
    requires Inv(h, s) && s.runState == WaitingForMembers
    ensures TickWaitingForMembers(s, pending, now).Running?
    ensures !MayAdmit(s, pending, now) ==> TickWaitingForMembers(s, pending, now).value == Step(s, Ticked)
    ensures MayAdmit(s, pending, now) ==>
              var t := TickWaitingForMembers(s, pending, now).value.state;
              && t.runState == Warmup && t.progress == s.progress && t.pendingPause == s.pendingPause
              && |t.epoch.clients| == Min(|pending.value|, 256)
              && (forall i | 0 <= i < |t.epoch.clients| ::
                    t.epoch.clients[i].id == pending.value[i] && t.epoch.clients[i].state == Healthy)
              && t.epoch.exitedClients == [] && t.epoch.rounds == ZERO_RING && t.epoch.firstRound
              && t.epoch.startStep == s.progress.step && t.epoch.lastStep == 0 && t.epoch.startTimestamp == now
  {
    TickWaitingKeepsInv(h, s, pending, now);
    if MayAdmit(s, pending, now) {
      PurgeCannotOverflow(s.epoch, Behind(s.epoch, 0).height);
      AdmittedSize(pending.value);
    }
  }

  function Min(a: nat, b: nat): nat {
    if a < b then a else b
  }

  /**
  A warmup ends in training exactly when its time is over; before that it loses its unhealthy clients, and
  with them, when too few stay, the epoch.
  */
  lemma WarmupDecision(h: Hashes, s: State, now: nat, seed: nat)
    requires Inv(h, s) && s.runState == Warmup
    ensures TickWarmup(s, now, seed).Running?
    ensures var step := TickWarmup(s, now, seed).value;
            if s.TimedOut(now, s.config.warmupTime) then
              && step.state.runState == RoundTrain && step.reply == Ticked
              && step.state.epoch.clients == s.epoch.clients
              && Behind(step.state.epoch, 0).randomSeed == seed
              && Behind(step.state.epoch, 0).dataIndex == s.progress.epochStartDataIndex
            else
              && step.state.epoch.clients == Staying(s.epoch.clients)
              && step.state.progress == s.progress
              && (if |Staying(s.epoch.clients)| < s.config.minClients
                  then step.state.runState == WaitingForMembers && step.reply == EpochEnd(false)
                  else step.state.runState == Warmup && step.reply == Ticked)
  {
    if s.TimedOut(now, s.config.warmupTime) {
      WarmupCanTrain(h, s, now, seed);
    } else {
      PurgeCannotOverflow(s.epoch, 0);
    }
  }

  /** What an epoch that is over leads to: the pause that was asked for, the next epoch, or the end. */
  lemma CooldownDecision(h: Hashes, s: State, now: nat)
    requires Inv(h, s) && s.runState == Cooldown
    ensures TickCooldown(s, now).Running?
    ensures var t := TickCooldown(s, now).value.state;
            t.runState == (if !s.TimedOut(now, s.config.cooldownTime) then Cooldown
                           else if s.pendingPause then Paused
                           else if s.progress.step < s.config.totalSteps then WaitingForMembers
                           else Finished)
  {
    TickCooldownKeepsInv(h, s, now);
    if s.TimedOut(now, s.config.cooldownTime) {
      EpochOverOk(h, s);
      WithdrawFromSucceedsIff(EpochOver(s).epoch.clients, 0);
      assert TickCooldown(s, now) == AfterCooldown(EpochOver(s), now);
    }
  }

  // ----- the order of the states -----

  /** The states a coordinator may go to next. */
  predicate MayMove(from: RunState, to: RunState) {
    || from == to
    || match from
       case WaitingForMembers => to == Warmup || to == Paused
       case Warmup => to == RoundTrain || to == WaitingForMembers || to == Paused
       case RoundTrain => to == RoundWitness
       case RoundWitness => to == RoundTrain || to == Cooldown
       case Cooldown => to == WaitingForMembers || to == Finished || to == Paused
       case Paused => to == WaitingForMembers || to == Finished
       case Finished => false
       case Uninitialized => false
  }

  lemma TickMoves(h: Hashes, s: State, pending: Option<seq<NodeId>>, now: nat, seed: nat)
    requires Inv(h, s) && Tick(s, pending, now, seed).Running?
    ensures MayMove(s.runState, Tick(s, pending, now, seed).value.state.runState)
  {
    if s.runState == RoundWitness {
      if s.TimedOut(now, s.config.roundWitnessTime) {
        ClosingShape(h, s, now, seed);
      }
    } else if s.runState == WaitingForMembers {
      AdmissionDecision(h, s, pending, now);
    } else if s.runState == Warmup {
      WarmupDecision(h, s, now, seed);
    } else if s.runState == Cooldown {
      CooldownDecision(h, s, now);
    }
  }

  /** No event of any kind takes the coordinator off the path, in any reachable state. */
  lemma ApplyMoves(h: Hashes, s: State, event: Event)
    requires Inv(h, s) && Apply(h, s, event).Running?
    ensures MayMove(s.runState, Apply(h, s, event).value.state.runState)
  {
    match event
    case TickEvent(pending, now, seed) => TickMoves(h, s, pending, now, seed);
    case WitnessEvent(from, message, now) =>
      if InRound(s) {
        AddWitnessMeaning(h, s, from, message, now);
      }
    case HealthCheckEvent(checks) => HealthCheckTouchesClients(h, s, checks);
    case _ =>
  }

  /** A run that has finished stays finished, at the configured number of steps, whatever comes. */
  lemma {:induction false} FinishedIsFinal(h: Hashes, s: State, events: seq<Event>)
    requires Inv(h, s) && s.runState == Finished && Run(h, s, events).Running?
    ensures var t := Run(h, s, events).value;
            t.runState == Finished && t.progress.step == s.progress.step == s.config.totalSteps
  {
    if events != [] {
      var n := |events| - 1;
      var before := Run(h, s, events[..n]).value;
      FinishedIsFinal(h, s, events[..n]);
      RunsAreSafe(h, s, events[..n]);
      ApplyMoves(h, before, events[n]);
      ApplyCountsSteps(h, before, events[n]);
    }
  }

  // ----- what is recorded -----

  /** The event's time, for the events that carry one. */
  function TimeOf(event: Event, otherwise: nat): nat {
    match event
    case TickEvent(_, now, _) => now
    case WarmupWitnessEvent(_, _, now, _) => now
    case WitnessEvent(_, _, now) => now
    case PauseEvent(now) => now
    case ResumeEvent(now) => now
    case _ => otherwise
  }

  predicate LeavesCooldown(before: State, after: State) {
    before.runState == Cooldown && after.runState != Cooldown
  }

  /**
  The state's starting time is the time of the event that entered it; the epoch counter counts the
  cooldowns that ended; an epoch is marked as a cold start by a pause and unmarked by a cooldown
  that ends without one; and a pause is pending from the moment it is asked for, in an active
  state, until a cooldown ends.
  */
  predicate Records(s: State, event: Event, t: State) {
    && t.runStateStart == (if t.runState == s.runState then s.runStateStart else TimeOf(event, 0))
    && t.progress.epoch == s.progress.epoch + (if LeavesCooldown(s, t) then 1 else 0)
    && t.epoch.coldStartEpoch
       == (if t.runState == Paused && s.runState != Paused then true
           else if LeavesCooldown(s, t) then false
           else s.epoch.coldStartEpoch)
    && t.pendingPause
       == (if event.PauseEvent? && s.IsActive() then true
           else if LeavesCooldown(s, t) then false
           else s.pendingPause)
  }

  /** A decision after a closing is entered at its time, and says nothing about cold starts. */
  predicate EnteredAt(s: State, t: State, now: nat) {
    t.runStateStart == now && t.epoch.coldStartEpoch == s.epoch.coldStartEpoch
  }

  lemma EmptyRoundRecords(s: State, now: nat, seed: nat)
    requires s.runState == RoundWitness && s.epoch.roundsHead < NUM_STORED_ROUNDS
    requires AllHealthy(s.epoch.clients)
    ensures AfterClosing(s, 0, now, seed).Running?
    ensures EnteredAt(s, AfterClosing(s, 0, now, seed).value.state, now)
  {
    WithdrawFromSucceedsIff(s.epoch.clients, 0);
  }

  lemma WitnessedRoundRecords(s: State, numWitnesses: nat, now: nat, seed: nat)
    requires s.runState == RoundWitness && s.epoch.roundsHead < NUM_STORED_ROUNDS
    requires numWitnesses > 0 && AfterClosing(s, numWitnesses, now, seed).Running?
    ensures EnteredAt(s, AfterClosing(s, numWitnesses, now, seed).value.state, now)
  {
    StartRoundTrainRuns(s.(epoch := s.epoch.(lastStep := ChooseLastStep(s, now))), now, seed);
  }

  lemma ClosingRecords(h: Hashes, s: State, now: nat, seed: nat)
    requires Inv(h, s) && s.runState == RoundWitness && s.TimedOut(now, s.config.roundWitnessTime)
    ensures TickRoundWitness(s, now, seed).Running?
    ensures EnteredAt(s, TickRoundWitness(s, now, seed).value.state, now)
  {
    var s1 := RoundClosing(s);
    var witnesses := |Behind(s.epoch, 0).witnesses|;
    ClosingShape(h, s, now, seed);
    ClosingIsAfterClosing(h, s, now, seed);
    RoundClosingOk(h, s);
    assert s1.epoch.coldStartEpoch == s.epoch.coldStartEpoch;
    if witnesses == 0 {
      EmptyRoundRecords(s1, now, seed);
    } else {
      WitnessedRoundRecords(s1, witnesses, now, seed);
    }
  }

  lemma TickRoundWitnessRecords(h: Hashes, s: State, pending: Option<seq<NodeId>>, now: nat, seed: nat)
    requires Inv(h, s) && s.runState == RoundWitness
    ensures TickRoundWitness(s, now, seed).Running?
    ensures Records(s, TickEvent(pending, now, seed), TickRoundWitness(s, now, seed).value.state)
  {
    if s.TimedOut(now, s.config.roundWitnessTime) {
      ClosingShape(h, s, now, seed);
      ClosingRecords(h, s, now, seed);
    }
  }

  lemma TickCooldownRecords(h: Hashes, s: State, pending: Option<seq<NodeId>>, now: nat, seed: nat)
    requires Inv(h, s) && s.runState == Cooldown
    ensures TickCooldown(s, now).Running?
    ensures Records(s, TickEvent(pending, now, seed), TickCooldown(s, now).value.state)
  {
    TickCooldownKeepsInv(h, s, now);
    if s.TimedOut(now, s.config.cooldownTime) {
      EpochOverOk(h, s);
      PurgeCannotOverflow(s.epoch, Behind(s.epoch, 0).height);
      WithdrawFromSucceedsIff(EpochOver(s).epoch.clients, 0);
    }
  }

  lemma TickWarmupRecords(h: Hashes, s: State, pending: Option<seq<NodeId>>, now: nat, seed: nat)
    requires Inv(h, s) && s.runState == Warmup
    ensures TickWarmup(s, now, seed).Running?
    ensures Records(s, TickEvent(pending, now, seed), TickWarmup(s, now, seed).value.state)
  {
    if s.TimedOut(now, s.config.warmupTime) {
      WarmupCanTrain(h, s, now, seed);
    } else {
      PurgeCannotOverflow(s.epoch, 0);
    }
  }

  lemma TickWaitingRecords(h: Hashes, s: State, pending: Option<seq<NodeId>>, now: nat, seed: nat)
    requires Inv(h, s) && s.runState == WaitingForMembers
    ensures TickWaitingForMembers(s, pending, now).Running?
    ensures Records(s, TickEvent(pending, now, seed), TickWaitingForMembers(s, pending, now).value.state)
  {
    PurgeCannotOverflow(s.epoch, Behind(s.epoch, 0).height);
  }

  lemma TickRecords(h: Hashes, s: State, pending: Option<seq<NodeId>>, now: nat, seed: nat)
    requires Inv(h, s) && Tick(s, pending, now, seed).Running?
    ensures Records(s, TickEvent(pending, now, seed), Tick(s, pending, now, seed).value.state)
  {
    match s.runState
    case WaitingForMembers => TickWaitingRecords(h, s, pending, now, seed);
    case Warmup => TickWarmupRecords(h, s, pending, now, seed);
    case RoundWitness => TickRoundWitnessRecords(h, s, pending, now, seed);
    case Cooldown => TickCooldownRecords(h, s, pending, now, seed);
    case _ =>
  }

  lemma WitnessRecords(h: Hashes, s: State, from: NodeId, w: Witness, now: nat)
    requires Inv(h, s) && AddWitness(h, s, from, w, now).Running?
    ensures Records(s, WitnessEvent(from, w, now), AddWitness(h, s, from, w, now).value.state)
  {
    if InRound(s) {
      AddWitnessMeaning(h, s, from, w, now);
    }
  }

  lemma WarmupWitnessRecords(h: Hashes, s: State, from: NodeId, w: Witness, now: nat, seed: nat)
    requires Inv(h, s) && AddWarmupWitness(s, from, w, now, seed).Running?
    ensures Records(s, WarmupWitnessEvent(from, w, now, seed), AddWarmupWitness(s, from, w, now, seed).value.state)
  {
  }

  lemma ApplyRecords(h: Hashes, s: State, event: Event)
    requires Inv(h, s) && Apply(h, s, event).Running?
    ensures Records(s, event, Apply(h, s, event).value.state)
  {
    match event
    case TickEvent(pending, now, seed) => TickRecords(h, s, pending, now, seed);
    case WarmupWitnessEvent(from, message, now, seed) => WarmupWitnessRecords(h, s, from, message, now, seed);
    case WitnessEvent(from, message, now) => WitnessRecords(h, s, from, message, now);
    case HealthCheckEvent(checks) => HealthCheckTouchesClients(h, s, checks);
    case _ =>
  }
}
