/** When a tick may act, in numbers, and how long the states it ends have lasted. */
module CoordinatorTiming {
  import opened Wrappers
  import opened Protocol
  import opened CoordinatorModel
  import opened CoordinatorInvariant
  import opened CoordinatorWitnesses
  import opened CoordinatorSteps
  import opened CoordinatorHealth
  import opened CoordinatorRuns
  import opened CoordinatorDecisions
  import opened CoordinatorEpochs

  // ----- one tick -----

  /** How long each state is configured to last; a state that no tick ends has no such time. */
  function ConfiguredTime(config: Config, state: RunState): Option<nat> {
    match state
    case WaitingForMembers => Some(config.waitingForMembersExtraTime)
    case Warmup => Some(config.warmupTime)
    case RoundTrain => Some(config.maxRoundTrainTime)
    case RoundWitness => Some(config.roundWitnessTime)
    case Cooldown => Some(config.cooldownTime)
    case _ => None
  }

  /** The state's configured time has passed since it was entered, at another moment than that. */
  predicate TimeIsUp(s: State, now: nat) {
    var time := ConfiguredTime(s.config, s.runState);
    time.Some? && now != s.runStateStart && now >= s.runStateStart + time.value
  }

  /** The states that a state's timeout leads to. */
  predicate MayFollow(from: RunState, to: RunState) {
    match from
    case WaitingForMembers => to == Warmup
    case Warmup => to == RoundTrain
    case RoundTrain => to == RoundWitness
    case RoundWitness => to == RoundTrain || to == Cooldown
    case Cooldown => to == WaitingForMembers || to == Finished || to == Paused
    case _ => false
  }

  /** Enough clients are pending, counted in sixteen bits. */
  predicate EnoughPending(s: State, pending: Option<seq<NodeId>>) {
    pending.Some? && |pending.value| % 0x1_0000 >= s.config.initMinClients
  }

  function CountHealthy(clients: seq<Client>): nat {
    if clients == [] then 0
    else CountHealthy(clients[..|clients| - 1]) + if clients[|clients| - 1].state == Healthy then 1 else 0
  }

  lemma {:induction false} StayingCount(clients: seq<Client>)
    ensures |Staying(clients)| == CountHealthy(clients)
  {
    if clients != [] {
      StayingCount(clients[..|clients| - 1]);
    }
  }

  lemma WaitingTiming(h: Hashes, s: State, pending: Option<seq<NodeId>>, now: nat)
    requires Inv(h, s) && s.runState == WaitingForMembers
    ensures TickWaitingForMembers(s, pending, now).Running?
    ensures TickWaitingForMembers(s, pending, now).value.state.runState
            == if TimeIsUp(s, now) && EnoughPending(s, pending) then Warmup else WaitingForMembers
  {
    AdmissionDecision(h, s, pending, now);
  }

  lemma WarmupTiming(h: Hashes, s: State, now: nat, seed: nat)
    requires Inv(h, s) && s.runState == Warmup
    ensures TickWarmup(s, now, seed).Running?
    ensures TickWarmup(s, now, seed).value.state.runState
            == if TimeIsUp(s, now) then RoundTrain
               else if CountHealthy(s.epoch.clients) < s.config.minClients then WaitingForMembers
               else Warmup
  {
    WarmupDecision(h, s, now, seed);
    StayingCount(s.epoch.clients);
  }

  lemma TrainTiming(s: State, now: nat)
    requires s.runState == RoundTrain
    ensures TickRoundTrain(s, now).Running?
    ensures TickRoundTrain(s, now).value.state.runState == if TimeIsUp(s, now) then RoundWitness else RoundTrain
  {
  }

  lemma WitnessTiming(h: Hashes, s: State, now: nat, seed: nat)
    requires Inv(h, s) && s.runState == RoundWitness
    ensures TickRoundWitness(s, now, seed).Running?
    ensures var to := TickRoundWitness(s, now, seed).value.state.runState;
            if TimeIsUp(s, now) then to == RoundTrain || to == Cooldown
            else TickRoundWitness(s, now, seed).value == Step(s, Ticked)
    ensures TimeIsUp(s, now) ==> TickRoundWitness(s, now, seed).value.state.progress.step == s.progress.step + 1
  {
    if s.TimedOut(now, s.config.roundWitnessTime) {
      ClosingDecision(h, s, now, seed);
      ClosingShape(h, s, now, seed);
    }
  }

  lemma CooldownTiming(h: Hashes, s: State, now: nat)
    requires Inv(h, s) && s.runState == Cooldown
    ensures TickCooldown(s, now).Running?
    ensures TickCooldown(s, now).value.state.runState
            == if !TimeIsUp(s, now) then Cooldown
               else if s.pendingPause then Paused
               else if s.progress.step < s.config.totalSteps then WaitingForMembers
               else Finished
  {
    CooldownDecision(h, s, now);
  }

  /**
  In every reachable state a tick goes on to what follows the state exactly when the state's configured time is up, and
  for the first step of an epoch enough clients are pending. There is one other way out: a warmup that
  is left with too few healthy clients before its time goes back to waiting.
  */
  lemma TickIsOnTime(h: Hashes, s: State, pending: Option<seq<NodeId>>, now: nat, seed: nat)
    requires Inv(h, s)
    ensures Tick(s, pending, now, seed).Running?
    ensures var to := Tick(s, pending, now, seed).value.state.runState;
            && (MayFollow(s.runState, to)
                <==> TimeIsUp(s, now) && (s.runState == WaitingForMembers ==> EnoughPending(s, pending)))
            && (!MayFollow(s.runState, to) ==>
                  to == if s.runState == Warmup && CountHealthy(s.epoch.clients) < s.config.minClients
                        then WaitingForMembers else s.runState)
  {
    TickKeepsInv(h, s, pending, now, seed);
    match s.runState
    case WaitingForMembers => WaitingTiming(h, s, pending, now);
    case Warmup => WarmupTiming(h, s, now, seed);
    case RoundTrain => TrainTiming(s, now);
    case RoundWitness => WitnessTiming(h, s, now, seed);
    case Cooldown => CooldownTiming(h, s, now);
    case _ =>
  }

  // ----- over runs -----

  /** The time of the event that took the run into the state it is in; before any did, the start that is kept. */
  function EntryTime(h: Hashes, s: State, events: seq<Event>): nat
    requires Run(h, s, events).Running?
  {
    if events == [] then s.runStateStart
    else
      var n := |events| - 1;
      if Run(h, s, events[..n]).value.runState == Run(h, s, events).value.runState then EntryTime(h, s, events[..n])
      else TimeOf(events[n], 0)
  }

  lemma {:induction false} StartIsEntry(h: Hashes, s: State, events: seq<Event>)
    requires Inv(h, s) && Run(h, s, events).Running?
    ensures Run(h, s, events).value.runStateStart == EntryTime(h, s, events)
  {
    if events != [] {
      var n := |events| - 1;
      StartIsEntry(h, s, events[..n]);
      RunsAreSafe(h, s, events[..n]);
      ApplyRecords(h, Run(h, s, events[..n]).value, events[n]);
    }
  }

  /**
  On any run: a state that a tick ends for what follows it has lasted its configured time by then, since the event
  that entered it. So training that no witness cut short went on for the longest time it may.
  */
  lemma StatesLastTheirTime(h: Hashes, s: State, events: seq<Event>, pending: Option<seq<NodeId>>, now: nat, seed: nat)
    requires Inv(h, s) && Run(h, s, events).Running?
    ensures var t := Run(h, s, events).value;
            var time := ConfiguredTime(s.config, t.runState);
            && Tick(t, pending, now, seed).Running?
            && (MayFollow(t.runState, Tick(t, pending, now, seed).value.state.runState) ==>
                  time.Some? && now != EntryTime(h, s, events) && now >= EntryTime(h, s, events) + time.value)
  {
    StartIsEntry(h, s, events);
    RunsAreSafe(h, s, events);
    RunKeepsConfig(h, s, events);
    TickIsOnTime(h, Run(h, s, events).value, pending, now, seed);
  }

  // ----- the time of an epoch -----

  /** The epoch's configured time has passed since it opened, at another moment than that. */
  predicate EpochIsUp(s: State, now: nat) {
    now != s.epoch.startTimestamp && now >= s.epoch.startTimestamp + s.config.epochTime
  }

  /**
  A round that closes with witnesses after the epoch's time is up sets the last step, three steps past its own,
  unless it is set already; no other event touches it within the epoch, or the time at which the epoch opened.
  */
  predicate KeepsEpochTime(s: State, event: Event, t: State) {
    && t.epoch.startTimestamp == s.epoch.startTimestamp
    && t.epoch.lastStep
       == if && event.TickEvent? && s.runState == RoundWitness && TimeIsUp(s, event.now)
             && s.epoch.roundsHead < NUM_STORED_ROUNDS && Behind(s.epoch, 0).witnesses != []
             && s.epoch.lastStep == 0 && EpochIsUp(s, event.now)
          then s.progress.step + 3 else s.epoch.lastStep
  }

  lemma ClosingKeepsStart(h: Hashes, s: State, now: nat, seed: nat)
    requires Inv(h, s) && s.runState == RoundWitness && TickRoundWitness(s, now, seed).Running?
    ensures TickRoundWitness(s, now, seed).value.state.epoch.startTimestamp == s.epoch.startTimestamp
  {
    if s.TimedOut(now, s.config.roundWitnessTime) {
      RoundClosingOk(h, s);
      ClosingIsAfterClosing(h, s, now, seed);
      AfterClosingKeepsStart(RoundClosing(s), |Behind(s.epoch, 0).witnesses|, now, seed);
    }
  }

  lemma AfterClosingKeepsStart(s: State, numWitnesses: nat, now: nat, seed: nat)
    requires AfterClosing(s, numWitnesses, now, seed).Running?
    ensures AfterClosing(s, numWitnesses, now, seed).value.state.epoch.startTimestamp == s.epoch.startTimestamp
  {
  }

  lemma WitnessTickKeepsEpochTime(h: Hashes, s: State, pending: Option<seq<NodeId>>, now: nat, seed: nat)
    requires Inv(h, s) && s.runState == RoundWitness && TickRoundWitness(s, now, seed).Running?
    ensures KeepsEpochTime(s, TickEvent(pending, now, seed), TickRoundWitness(s, now, seed).value.state)
  {
    ClosingKeepsStart(h, s, now, seed);
    if s.TimedOut(now, s.config.roundWitnessTime) {
      ClosingDecision(h, s, now, seed);
    }
  }

  lemma CooldownKeepsEpochTime(h: Hashes, s: State, now: nat)
    requires Inv(h, s) && s.runState == Cooldown && TickCooldown(s, now).Running?
    ensures var t := TickCooldown(s, now).value.state;
            t.epoch.startTimestamp == s.epoch.startTimestamp && t.epoch.lastStep == s.epoch.lastStep
  {
    if s.TimedOut(now, s.config.cooldownTime) {
      CooldownIsAfterCooldown(h, s, now);
      PurgeCannotOverflow(s.epoch, Behind(s.epoch, 0).height);
    }
  }

  lemma WaitingKeepsEpochTime(h: Hashes, s: State, pending: Option<seq<NodeId>>, now: nat)
    requires Inv(h, s) && s.runState == WaitingForMembers && TickWaitingForMembers(s, pending, now).Running?
    requires !Admits(s, TickWaitingForMembers(s, pending, now).value.state)
    ensures TickWaitingForMembers(s, pending, now).value.state == s
  {
    AdmissionDecision(h, s, pending, now);
  }

  lemma TickKeepsEpochTime(h: Hashes, s: State, pending: Option<seq<NodeId>>, now: nat, seed: nat)
    requires Inv(h, s) && Tick(s, pending, now, seed).Running?
    requires !Admits(s, Tick(s, pending, now, seed).value.state)
    ensures KeepsEpochTime(s, TickEvent(pending, now, seed), Tick(s, pending, now, seed).value.state)
  {
    match s.runState
    case RoundWitness => WitnessTickKeepsEpochTime(h, s, pending, now, seed);
    case Cooldown => CooldownKeepsEpochTime(h, s, now);
    case WaitingForMembers => WaitingKeepsEpochTime(h, s, pending, now);
    case _ =>
  }

  lemma MessageKeepsEpochTime(h: Hashes, s: State, event: Event)
    requires Inv(h, s) && Apply(h, s, event).Running? && !event.TickEvent?
    ensures var t := Apply(h, s, event).value.state;
            t.epoch.startTimestamp == s.epoch.startTimestamp && t.epoch.lastStep == s.epoch.lastStep
  {
    if event.WitnessEvent? {
      WitnessKeepsEpochTime(h, s, event.from, event.message, event.now);
    } else if event.HealthCheckEvent? {
      HealthCheckTouchesClients(h, s, event.checks);
    } else {
      OtherKeepsEpochTime(h, s, event);
    }
  }

  lemma OtherKeepsEpochTime(h: Hashes, s: State, event: Event)
    requires Apply(h, s, event).Running?
    requires !event.TickEvent? && !event.WitnessEvent? && !event.HealthCheckEvent?
    ensures var t := Apply(h, s, event).value.state;
            t.epoch.startTimestamp == s.epoch.startTimestamp && t.epoch.lastStep == s.epoch.lastStep
  {
  }

  lemma WitnessKeepsEpochTime(h: Hashes, s: State, from: NodeId, w: Witness, now: nat)
    requires Inv(h, s) && AddWitness(h, s, from, w, now).Running?
    ensures var t := AddWitness(h, s, from, w, now).value.state;
            t.epoch.startTimestamp == s.epoch.startTimestamp && t.epoch.lastStep == s.epoch.lastStep
  {
    if InRound(s) {
      AddWitnessMeaning(h, s, from, w, now);
    }
  }

  lemma ApplyKeepsEpochTime(h: Hashes, s: State, event: Event)
    requires Inv(h, s) && Apply(h, s, event).Running?
    requires !Admits(s, Apply(h, s, event).value.state)
    ensures KeepsEpochTime(s, event, Apply(h, s, event).value.state)
  {
    if event.TickEvent? {
      TickKeepsEpochTime(h, s, event.pending, event.now, event.seed);
    } else {
      MessageKeepsEpochTime(h, s, event);
    }
  }

  /** Some tick of the run comes when the configured time of the epoch that opened at `start` is up. */
  predicate TickedLate(config: Config, start: nat, events: seq<Event>) {
    exists n :: 0 <= n < |events| && events[n].TickEvent? && events[n].now >= start + config.epochTime
  }

  /**
  On any run within an epoch: the epoch keeps the time at which it opened, and gets a last step
  only by a tick that comes its configured time after that.
  */
  lemma {:induction false} EpochsLastTheirTime(h: Hashes, s: State, events: seq<Event>)
    requires Inv(h, s) && Run(h, s, events).Running? && WithinEpoch(h, s, events)
    ensures var t := Run(h, s, events).value;
            && t.epoch.startTimestamp == s.epoch.startTimestamp
            && (s.epoch.lastStep == 0 && t.epoch.lastStep != 0 ==>
                  TickedLate(s.config, s.epoch.startTimestamp, events))
  {
    if events != [] {
      var n := |events| - 1;
      var before := Run(h, s, events[..n]).value;
      EpochsLastTheirTime(h, s, events[..n]);
      RunsAreSafe(h, s, events[..n]);
      RunKeepsConfig(h, s, events[..n]);
      ApplyKeepsEpochTime(h, before, events[n]);
      TickedEarlier(s.config, s.epoch.startTimestamp, events);
    }
  }

  lemma TickedEarlier(config: Config, start: nat, events: seq<Event>)
    requires events != []
    ensures var n := |events| - 1;
            TickedLate(config, start, events[..n])
            || (events[n].TickEvent? && events[n].now >= start + config.epochTime)
            ==> TickedLate(config, start, events)
  {
    var n := |events| - 1;
    if TickedLate(config, start, events[..n]) {
      var k :| 0 <= k < n && events[..n][k].TickEvent? && events[..n][k].now >= start + config.epochTime;
      assert events[k].now >= start + config.epochTime;
    }
  }
}
