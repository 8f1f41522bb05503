/** At which height clients leave, and in which order the exited ones stand. */
module CoordinatorExits {
  import opened Wrappers
  import opened Protocol
  import opened CoordinatorModel
  import opened CoordinatorInvariant
  import opened CoordinatorWitnesses
  import opened CoordinatorSteps
  import opened CoordinatorHealth
  import opened CoordinatorRuns
  import opened CoordinatorDecisions
  import opened CoordinatorEpochs

  /** The exited list has at most grown, by clients stamped with the height. */
  predicate Stamped(e: EpochState, later: EpochState, height: nat) {
    && |e.exitedClients| <= |later.exitedClients|
    && (forall k | 0 <= k < |e.exitedClients| :: later.exitedClients[k] == e.exitedClients[k])
    && (forall k | |e.exitedClients| <= k < |later.exitedClients| :: later.exitedClients[k].exitedHeight == height)
  }

  lemma PurgeStamps(e: EpochState, later: EpochState, height: nat)
    requires later.exitedClients == e.exitedClients + Leaving(e.clients, height)
    ensures Stamped(e, later, height)
  {
    PurgeSplits(e.clients, height);
    forall k | |e.exitedClients| <= k < |later.exitedClients|
      ensures later.exitedClients[k].exitedHeight == height
    {
      assert later.exitedClients[k] in Leaving(e.clients, height);
    }
  }

  lemma ClosingStamps(h: Hashes, s: State, now: nat, seed: nat)
    requires Inv(h, s) && s.runState == RoundWitness && TickRoundWitness(s, now, seed).Running?
    ensures Stamped(s.epoch, TickRoundWitness(s, now, seed).value.state.epoch, Behind(s.epoch, 0).height)
  {
    if s.TimedOut(now, s.config.roundWitnessTime) {
      RoundClosingOk(h, s);
      ClosingShape(h, s, now, seed);
      PurgeStamps(s.epoch, TickRoundWitness(s, now, seed).value.state.epoch, Behind(s.epoch, 0).height);
    }
  }

  lemma CooldownStamps(h: Hashes, s: State, now: nat)
    requires Inv(h, s) && s.runState == Cooldown && TickCooldown(s, now).Running?
    ensures Stamped(s.epoch, TickCooldown(s, now).value.state.epoch, Behind(s.epoch, 0).height)
  {
    if s.TimedOut(now, s.config.cooldownTime) {
      CooldownIsAfterCooldown(h, s, now);
      PurgeCannotOverflow(s.epoch, Behind(s.epoch, 0).height);
      PurgeStamps(s.epoch, TickCooldown(s, now).value.state.epoch, Behind(s.epoch, 0).height);
    }
  }

  lemma WarmupStamps(s: State, now: nat, seed: nat)
    requires s.runState == Warmup && s.epoch.roundsHead < NUM_STORED_ROUNDS && TickWarmup(s, now, seed).Running?
    ensures Stamped(s.epoch, TickWarmup(s, now, seed).value.state.epoch, 0)
  {
    if !s.TimedOut(now, s.config.warmupTime) {
      PurgeStamps(s.epoch, TickWarmup(s, now, seed).value.state.epoch, 0);
    }
  }

  lemma TickStamps(h: Hashes, s: State, pending: Option<seq<NodeId>>, now: nat, seed: nat)
    requires Inv(h, s) && Tick(s, pending, now, seed).Running?
    requires !Admits(s, Tick(s, pending, now, seed).value.state)
    ensures Stamped(s.epoch, Tick(s, pending, now, seed).value.state.epoch, Behind(s.epoch, 0).height)
  {
    match s.runState
    case WaitingForMembers => AdmissionDecision(h, s, pending, now);
    case Warmup => WarmupStamps(s, now, seed);
    case RoundWitness => ClosingStamps(h, s, now, seed);
    case Cooldown => CooldownStamps(h, s, now);
    case _ =>
  }

  lemma MessageKeepsExits(h: Hashes, s: State, event: Event)
    requires Inv(h, s) && Apply(h, s, event).Running? && !event.TickEvent?
    ensures Apply(h, s, event).value.state.epoch.exitedClients == s.epoch.exitedClients
  {
    if event.WitnessEvent? {
      if InRound(s) {
        AddWitnessMeaning(h, s, event.from, event.message, event.now);
      }
    } else if event.HealthCheckEvent? {
      HealthCheckTouchesClients(h, s, event.checks);
    } else if !event.WarmupWitnessEvent? {
      LeavingTouchesHealth(h, s, event);
    }
  }

  /** Whoever an event makes leave, while no epoch opens, leaves with the height of the round that is current. */
  lemma ApplyStamps(h: Hashes, s: State, event: Event)
    requires Inv(h, s) && Apply(h, s, event).Running?
    requires !Admits(s, Apply(h, s, event).value.state)
    ensures Stamped(s.epoch, Apply(h, s, event).value.state.epoch, Behind(s.epoch, 0).height)
  {
    if event.TickEvent? {
      TickStamps(h, s, event.pending, event.now, event.seed);
    } else {
      MessageKeepsExits(h, s, event);
    }
  }

  /** The exited clients stand in the order of the heights at which they left, none of them in the future. */
  predicate ExitsInOrder(e: EpochState) {
    && e.roundsHead < NUM_STORED_ROUNDS
    && (forall i | 0 <= i < |e.exitedClients| :: e.exitedClients[i].exitedHeight <= Behind(e, 0).height)
    && (forall i, j | 0 <= i < j < |e.exitedClients| ::
          e.exitedClients[i].exitedHeight <= e.exitedClients[j].exitedHeight)
  }

  lemma StampedInOrder(e: EpochState, later: EpochState)
    requires ExitsInOrder(e) && Stamped(e, later, Behind(e, 0).height)
    requires later.roundsHead < NUM_STORED_ROUNDS && Behind(e, 0).height <= Behind(later, 0).height
    ensures ExitsInOrder(later)
  {
  }

  lemma HeightRises(h: Hashes, s: State, event: Event)
    requires Inv(h, s) && Apply(h, s, event).Running?
    requires !Admits(s, Apply(h, s, event).value.state)
    ensures var t := Apply(h, s, event).value.state;
            t.epoch.roundsHead < NUM_STORED_ROUNDS && Behind(s.epoch, 0).height <= Behind(t.epoch, 0).height
  {
    var t := Apply(h, s, event).value.state;
    ApplyKeepsInv(h, s, event);
    if Started(s) {
      ApplyFollows(h, s, event);
      if forall k: nat | k < NUM_STORED_ROUNDS :: SameRound(Behind(t.epoch, k), Behind(s.epoch, k)) {
        assert SameRound(Behind(t.epoch, 0), Behind(s.epoch, 0));
      }
    }
  }

  lemma AdmissionStartsInOrder(h: Hashes, s: State, event: Event)
    requires Inv(h, s) && Apply(h, s, event).Running? && Admits(s, Apply(h, s, event).value.state)
    ensures ExitsInOrder(Apply(h, s, event).value.state.epoch)
  {
    if event.TickEvent? {
      AdmissionDecision(h, s, event.pending, event.now);
    } else {
      OnlyTicksAdmit(h, s, event);
    }
    ApplyKeepsInv(h, s, event);
  }

  lemma {:induction false} ExitsStayInOrder(h: Hashes, s: State, events: seq<Event>)
    requires Inv(h, s) && ExitsInOrder(s.epoch) && Run(h, s, events).Running?
    ensures ExitsInOrder(Run(h, s, events).value.epoch)
  {
    if events != [] {
      var n := |events| - 1;
      var before := Run(h, s, events[..n]).value;
      ExitsStayInOrder(h, s, events[..n]);
      RunsAreSafe(h, s, events[..n]);
      if Admits(before, Run(h, s, events).value) {
        AdmissionStartsInOrder(h, before, events[n]);
      } else {
        ApplyStamps(h, before, events[n]);
        HeightRises(h, before, events[n]);
        StampedInOrder(before.epoch, Run(h, s, events).value.epoch);
      }
    }
  }

  /** So they do in every reachable state. */
  lemma ReachableExitsAreInOrder(h: Hashes, s: State, events: seq<Event>)
    requires Initial(s) && Run(h, s, events).Running?
    ensures ExitsInOrder(Run(h, s, events).value.epoch)
  {
    InitialInv(h, s);
    ExitsStayInOrder(h, s, events);
  }
}
