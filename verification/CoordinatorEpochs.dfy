/** Within one epoch: clients are conserved, rounds stay findable, and the last step is respected. */
module CoordinatorEpochs {
  import opened Wrappers
  import opened Protocol
  import opened Sequences
  import opened CoordinatorModel
  import opened CoordinatorInvariant
  import opened CoordinatorWitnesses
  import opened CoordinatorSteps
  import opened CoordinatorHealth
  import opened CoordinatorRuns

  // ----- conservation of clients -----

  /** The clients that have left since `e`, in the order they left. */
  function LeftSince(e: EpochState, later: EpochState): seq<Client>
    requires |e.exitedClients| <= |later.exitedClients|
  {
    later.exitedClients[|e.exitedClients|..]
  }

  /**
  `later` is reached from `e` by clients leaving: whoever is not in the list any more has exited since, and
  the others stand in the old order.
  */
  predicate Descends(e: EpochState, later: EpochState) {
    && |e.exitedClients| <= |later.exitedClients|
    && later.exitedClients[..|e.exitedClients|] == e.exitedClients
    && |later.clients| + |LeftSince(e, later)| == |e.clients|
    && multiset(Ids(later.clients)) + multiset(Ids(LeftSince(e, later))) == multiset(Ids(e.clients))
    && Subsequence(Ids(later.clients), Ids(e.clients))
  }

  lemma DescendsBySameIds(e: EpochState, later: EpochState)
    requires SameIds(e.clients, later.clients) && later.exitedClients == e.exitedClients
    ensures Descends(e, later)
  {
    assert Ids(e.clients) == Ids(later.clients);
    assert LeftSince(e, later) == [] && Ids([]) == [];
    SubsequenceReflexive(Ids(e.clients));
  }

  lemma {:induction false} StayingInOrder(clients: seq<Client>)
    ensures Subsequence(Ids(Staying(clients)), Ids(clients))
  {
    if clients != [] {
      var n := |clients| - 1;
      var stay := Staying(clients[..n]);
      StayingInOrder(clients[..n]);
      KeepsOrder(Ids(stay), Ids(clients[..n]), clients[n].id);
      assert Ids(clients) == Ids(clients[..n]) + [clients[n].id];
      assert Ids(stay + [clients[n]]) == Ids(stay) + [clients[n].id];
      assert Staying(clients) == if clients[n].state == Healthy then stay + [clients[n]] else stay;
    }
  }

  lemma {:induction false} LeavingInOrder(clients: seq<Client>, height: nat)
    ensures Subsequence(Ids(Leaving(clients, height)), Ids(clients))
  {
    if clients != [] {
      var n := |clients| - 1;
      var leave, last := Leaving(clients[..n], height), clients[n].(exitedHeight := height);
      LeavingInOrder(clients[..n], height);
      KeepsOrder(Ids(leave), Ids(clients[..n]), last.id);
      assert Ids(clients) == Ids(clients[..n]) + [last.id];
      assert Ids(leave + [last]) == Ids(leave) + [last.id];
      assert Leaving(clients, height) == if clients[n].state == Healthy then leave else leave + [last];
    }
  }

  lemma DescendsByPurge(e: EpochState, height: nat)
    requires MoveClientsToExited(e, height).Running?
    ensures Descends(e, MoveClientsToExited(e, height).value)
  {
    var later := MoveClientsToExited(e, height).value;
    PurgeSplits(e.clients, height);
    StayingInOrder(e.clients);
    assert LeftSince(e, later) == Leaving(e.clients, height);
  }

  lemma DescendsTransitive(a: EpochState, b: EpochState, c: EpochState)
    requires Descends(a, b) && Descends(b, c)
    ensures Descends(a, c)
  {
    assert c.exitedClients[..|a.exitedClients|] == c.exitedClients[..|b.exitedClients|][..|a.exitedClients|];
    assert LeftSince(a, c) == LeftSince(a, b) + LeftSince(b, c) by {
      assert c.exitedClients == b.exitedClients + LeftSince(b, c);
    }
    IdsOfConcat(LeftSince(a, b), LeftSince(b, c));
    SubsequenceTransitive(Ids(c.clients), Ids(b.clients), Ids(a.clients));
  }

  // ----- the ring within an epoch -----

  /** Two rounds that differ at most in the witnesses recorded so far. */
  predicate SameRound(a: Round, b: Round) {
    a.(witnesses := []) == b.(witnesses := [])
  }

  /** The ring did not move, or it moved on by one round. */
  predicate RingFollows(e: EpochState, later: EpochState)
    requires e.roundsHead < NUM_STORED_ROUNDS && later.roundsHead < NUM_STORED_ROUNDS
  {
    || (forall k: nat | k < NUM_STORED_ROUNDS :: SameRound(Behind(later, k), Behind(e, k)))
    || (Behind(later, 0).height == Behind(e, 0).height + 1
        && forall k: nat | k < NUM_STORED_ROUNDS - 1 :: SameRound(Behind(later, k + 1), Behind(e, k)))
  }

  /** Between rounds of the same epoch: anything but waiting for the first of them. */
  predicate Started(s: State) {
    s.runState != Warmup
  }

  /** The event opens a new epoch. */
  predicate Admits(before: State, after: State) {
    before.runState == WaitingForMembers && after.runState == Warmup
  }

  lemma SameRingFollows(e: EpochState, later: EpochState)
    requires e.roundsHead < NUM_STORED_ROUNDS
    requires later.rounds == e.rounds && later.roundsHead == e.roundsHead
    ensures RingFollows(e, later)
  {
    assert forall k: nat | k < NUM_STORED_ROUNDS :: Behind(later, k) == Behind(e, k);
  }

  lemma NewWitnessesFollow(e: EpochState, later: EpochState, witnesses: seq<Witness>)
    requires e.roundsHead < NUM_STORED_ROUNDS && later.roundsHead == e.roundsHead
    requires later.rounds == SetCurrentRound(e, Behind(e, 0).(witnesses := witnesses)).rounds
    ensures RingFollows(e, later)
  {
    assert forall k: nat | 0 < k < NUM_STORED_ROUNDS :: Behind(later, k) == Behind(e, k);
  }

  lemma NextRoundFollows(e: EpochState, later: EpochState, round: Round)
    requires e.roundsHead < NUM_STORED_ROUNDS
    requires later.roundsHead == (e.roundsHead + 1) % NUM_STORED_ROUNDS
    requires later.rounds == e.rounds[later.roundsHead := round]
    requires round.height == Behind(e, 0).height + 1
    ensures RingFollows(e, later)
  {
    assert forall k: nat | k < NUM_STORED_ROUNDS - 1 :: Behind(later, k + 1) == Behind(e, k);
  }

  lemma TickFollows(h: Hashes, s: State, pending: Option<seq<NodeId>>, now: nat, seed: nat)
    requires Inv(h, s) && Started(s)
    requires Tick(s, pending, now, seed).Running? && Inv(h, Tick(s, pending, now, seed).value.state)
    requires !Admits(s, Tick(s, pending, now, seed).value.state)
    ensures var t := Tick(s, pending, now, seed).value.state;
            Started(t) && Descends(s.epoch, t.epoch) && RingFollows(s.epoch, t.epoch)
  {
    var t := Tick(s, pending, now, seed).value.state;
    match s.runState
    case RoundWitness => ClosingFollows(h, s, now, seed);
    case Cooldown => CooldownFollows(h, s, now);
    case WaitingForMembers =>
      PurgeCannotOverflow(s.epoch, Behind(s.epoch, 0).height);
      DescendsBySameIds(s.epoch, t.epoch);
      SameRingFollows(s.epoch, t.epoch);
    case _ =>
      DescendsBySameIds(s.epoch, t.epoch);
      SameRingFollows(s.epoch, t.epoch);
  }

  lemma CooldownFollows(h: Hashes, s: State, now: nat)
    requires Inv(h, s) && s.runState == Cooldown
    ensures TickCooldown(s, now).Running?
    ensures var t := TickCooldown(s, now).value.state;
            Started(t) && Descends(s.epoch, t.epoch) && RingFollows(s.epoch, t.epoch)
  {
    TickCooldownKeepsInv(h, s, now);
    var t := TickCooldown(s, now).value.state;
    if s.TimedOut(now, s.config.cooldownTime) {
      var height := Behind(s.epoch, 0).height;
      PurgeCannotOverflow(s.epoch, height);
      DescendsByPurge(s.epoch, height);
      var purged := MoveClientsToExited(s.epoch, height).value;
      WithdrawFromSucceedsIff(purged.clients, 0);
      DescendsBySameIds(purged, t.epoch);
      DescendsTransitive(s.epoch, purged, t.epoch);
    } else {
      DescendsBySameIds(s.epoch, t.epoch);
    }
    SameRingFollows(s.epoch, t.epoch);
  }

  lemma ClosingFollows(h: Hashes, s: State, now: nat, seed: nat)
    requires Inv(h, s) && s.runState == RoundWitness
    ensures TickRoundWitness(s, now, seed).Running?
    ensures var t := TickRoundWitness(s, now, seed).value.state;
            Started(t) && Descends(s.epoch, t.epoch)
            && t.epoch.roundsHead < NUM_STORED_ROUNDS && RingFollows(s.epoch, t.epoch)
  {
    if s.TimedOut(now, s.config.roundWitnessTime) {
      TimedOutFollows(h, s, now, seed);
    } else {
      DescendsBySameIds(s.epoch, s.epoch);
      SameRingFollows(s.epoch, s.epoch);
    }
  }

  lemma TimedOutFollows(h: Hashes, s: State, now: nat, seed: nat)
    requires Inv(h, s) && s.runState == RoundWitness && s.TimedOut(now, s.config.roundWitnessTime)
    ensures TickRoundWitness(s, now, seed).Running?
    ensures var t := TickRoundWitness(s, now, seed).value.state;
            Started(t) && Descends(s.epoch, t.epoch)
            && t.epoch.roundsHead < NUM_STORED_ROUNDS && RingFollows(s.epoch, t.epoch)
  {
    var s1 := RoundClosing(s);
    RoundClosingOk(h, s);
    ClosingShape(h, s, now, seed);
    ClosingIsAfterClosing(h, s, now, seed);
    var t := TickRoundWitness(s, now, seed).value.state;
    RoundClosingDescends(h, s);
    DescendsBySameIds(s1.epoch, t.epoch);
    DescendsTransitive(s.epoch, s1.epoch, t.epoch);
    AfterClosingRing(s1, |Behind(s.epoch, 0).witnesses|, now, seed);
    RingFollowsFrom(s.epoch, s1.epoch, t.epoch);
  }

  lemma RoundClosingDescends(h: Hashes, s: State)
    requires Inv(h, s) && s.runState == RoundWitness
    ensures Descends(s.epoch, RoundClosing(s).epoch)
    ensures RoundClosing(s).epoch.rounds == s.epoch.rounds
    ensures RoundClosing(s).epoch.roundsHead == s.epoch.roundsHead
    ensures !RoundClosing(s).epoch.firstRound
  {
    RoundClosingOk(h, s);
    DescendsByPurge(s.epoch.(firstRound := false), Behind(s.epoch, 0).height);
    DescendsFrom(s.epoch, s.epoch.(firstRound := false), RoundClosing(s).epoch);
  }

  lemma DescendsFrom(a: EpochState, b: EpochState, later: EpochState)
    requires a.clients == b.clients && a.exitedClients == b.exitedClients && Descends(b, later)
    ensures Descends(a, later)
  {
  }

  lemma RingFollowsFrom(a: EpochState, b: EpochState, later: EpochState)
    requires a.rounds == b.rounds && a.roundsHead == b.roundsHead < NUM_STORED_ROUNDS
    requires later.roundsHead < NUM_STORED_ROUNDS && RingFollows(b, later)
    ensures RingFollows(a, later)
  {
    assert forall k: nat | k < NUM_STORED_ROUNDS :: Behind(a, k) == Behind(b, k);
  }

  /** A closed round either cools down, clearing its witnesses, or is followed by the next. */
  lemma AfterClosingRing(s: State, numWitnesses: nat, now: nat, seed: nat)
    requires s.runState == RoundWitness && s.epoch.roundsHead < NUM_STORED_ROUNDS
    requires !s.epoch.firstRound && AllHealthy(s.epoch.clients)
    requires AfterClosing(s, numWitnesses, now, seed).Running?
    ensures var t := AfterClosing(s, numWitnesses, now, seed).value.state;
            t.epoch.roundsHead < NUM_STORED_ROUNDS && RingFollows(s.epoch, t.epoch)
  {
    var t := AfterClosing(s, numWitnesses, now, seed).value.state;
    WithdrawFromSucceedsIff(s.epoch.clients, 0);
    var s1 := s.(epoch := s.epoch.(lastStep := ChooseLastStep(s, now)));
    StartRoundTrainRuns(s1, now, seed);
    if t.runState == Cooldown {
      NewWitnessesFollow(s.epoch, t.epoch, []);
    } else {
      NextRoundFollows(s.epoch, t.epoch, RoundToStart(s1, seed));
    }
  }

  lemma WitnessFollows(h: Hashes, s: State, from: NodeId, w: Witness, now: nat)
    requires Inv(h, s) && AddWitness(h, s, from, w, now).Running?
    ensures var t := AddWitness(h, s, from, w, now).value.state;
            Descends(s.epoch, t.epoch) && t.epoch.roundsHead < NUM_STORED_ROUNDS && RingFollows(s.epoch, t.epoch)
  {
    if InRound(s) {
      AddWitnessMeaning(h, s, from, w, now);
    }
    if InRound(s) && Admissible(h, s, from, w) {
      AddedWitnessFollows(s, w, now);
    } else {
      HealthFollows(s.epoch, s.epoch);
    }
  }

  lemma AddedWitnessFollows(s: State, w: Witness, now: nat)
    requires s.epoch.roundsHead < NUM_STORED_ROUNDS
    ensures var t := WitnessAdded(s, w, now);
            Descends(s.epoch, t.epoch) && t.epoch.roundsHead == s.epoch.roundsHead && RingFollows(s.epoch, t.epoch)
  {
    var t := WitnessAdded(s, w, now);
    DescendsBySameIds(s.epoch, t.epoch);
    NewWitnessesFollow(s.epoch, t.epoch, Behind(s.epoch, 0).witnesses + [w]);
  }

  lemma HealthCheckFollows(h: Hashes, s: State, checks: HealthChecks)
    requires Inv(h, s) && HealthCheck(h, s, checks).Running?
    ensures var t := HealthCheck(h, s, checks).value.state;
            Descends(s.epoch, t.epoch) && t.epoch.roundsHead < NUM_STORED_ROUNDS && RingFollows(s.epoch, t.epoch)
  {
    HealthCheckMeaning(h, s, checks);
    var t := HealthCheck(h, s, checks).value.state;
    DescendsBySameIds(s.epoch, t.epoch);
    SameRingFollows(s.epoch, t.epoch);
  }

  lemma HealthFollows(e: EpochState, later: EpochState)
    requires e.roundsHead < NUM_STORED_ROUNDS
    requires SameIds(e.clients, later.clients) && later.exitedClients == e.exitedClients
    requires later.rounds == e.rounds && later.roundsHead == e.roundsHead
    ensures Descends(e, later) && RingFollows(e, later)
  {
    DescendsBySameIds(e, later);
    SameRingFollows(e, later);
  }

  /** Leaving, pausing and resuming touch the health of the listed clients and nothing else of the epoch that counts. */
  lemma LeavingTouchesHealth(h: Hashes, s: State, event: Event)
    requires event.WithdrawEvent? || event.WithdrawAllEvent? || event.PauseEvent? || event.ResumeEvent?
    requires Apply(h, s, event).Running?
    ensures var e := Apply(h, s, event).value.state.epoch;
            && SameIds(s.epoch.clients, e.clients) && e.exitedClients == s.epoch.exitedClients
            && e.rounds == s.epoch.rounds && e.roundsHead == s.epoch.roundsHead
  {
    WithdrawFromKeepsIds(s.epoch.clients, 0);
  }

  lemma WarmupDescends(h: Hashes, s: State, event: Event)
    requires event.TickEvent? || event.WarmupWitnessEvent?
    requires Inv(h, s) && s.runState == Warmup && Apply(h, s, event).Running?
    ensures Descends(s.epoch, Apply(h, s, event).value.state.epoch)
  {
    var t := Apply(h, s, event).value.state;
    if event.TickEvent? && !s.TimedOut(event.now, s.config.warmupTime) {
      PurgeCannotOverflow(s.epoch, 0);
      DescendsByPurge(s.epoch, 0);
    } else {
      DescendsBySameIds(s.epoch, t.epoch);
    }
  }

  /** Only an admission leads to a warmup. */
  lemma ApplyStaysStarted(h: Hashes, s: State, event: Event)
    requires Inv(h, s) && Started(s) && Apply(h, s, event).Running?
    requires !Admits(s, Apply(h, s, event).value.state)
    ensures Started(Apply(h, s, event).value.state)
  {
    match event
    case TickEvent(pending, now, seed) =>
      TickKeepsInv(h, s, pending, now, seed);
      TickFollows(h, s, pending, now, seed);
    case WitnessEvent(from, message, now) =>
      if InRound(s) {
        AddWitnessMeaning(h, s, from, message, now);
      }
    case HealthCheckEvent(checks) => HealthCheckTouchesClients(h, s, checks);
    case _ =>
  }

  /** Clients are conserved and the ring moves on by at most one round. */
  predicate Follows(e: EpochState, later: EpochState) {
    && Descends(e, later)
    && e.roundsHead < NUM_STORED_ROUNDS && later.roundsHead < NUM_STORED_ROUNDS && RingFollows(e, later)
  }

  lemma LeavingFollows(h: Hashes, s: State, event: Event)
    requires event.WithdrawEvent? || event.WithdrawAllEvent? || event.PauseEvent? || event.ResumeEvent?
    requires Inv(h, s) && Apply(h, s, event).Running?
    ensures Follows(s.epoch, Apply(h, s, event).value.state.epoch)
  {
    LeavingTouchesHealth(h, s, event);
    HealthFollows(s.epoch, Apply(h, s, event).value.state.epoch);
  }

  /** A message leaves the epoch as it follows, whatever the reply. */
  lemma MessageFollows(h: Hashes, s: State, event: Event)
    requires !event.TickEvent? && !event.WarmupWitnessEvent?
    requires Inv(h, s) && Apply(h, s, event).Running?
    ensures Follows(s.epoch, Apply(h, s, event).value.state.epoch)
  {
    if event.WitnessEvent? {
      WitnessFollows(h, s, event.from, event.message, event.now);
    } else if event.HealthCheckEvent? {
      HealthCheckFollows(h, s, event.checks);
    } else {
      LeavingFollows(h, s, event);
    }
  }

  /** Every event of an epoch that has started conserves clients and moves the ring by at most one round. */
  lemma ApplyFollows(h: Hashes, s: State, event: Event)
    requires Inv(h, s) && Started(s) && Apply(h, s, event).Running?
    requires !Admits(s, Apply(h, s, event).value.state)
    ensures Follows(s.epoch, Apply(h, s, event).value.state.epoch)
  {
    match event
    case TickEvent(pending, now, seed) =>
      TickKeepsInv(h, s, pending, now, seed);
      TickFollows(h, s, pending, now, seed);
    case WarmupWitnessEvent(_, _, _, _) => HealthFollows(s.epoch, s.epoch);
    case _ => MessageFollows(h, s, event);
  }

  /** Every event but the admission of a new epoch conserves clients. */
  lemma ApplyDescends(h: Hashes, s: State, event: Event)
    requires Inv(h, s) && Apply(h, s, event).Running?
    requires !Admits(s, Apply(h, s, event).value.state)
    ensures Descends(s.epoch, Apply(h, s, event).value.state.epoch)
  {
    if Started(s) {
      ApplyFollows(h, s, event);
    } else if event.TickEvent? || event.WarmupWitnessEvent? {
      WarmupDescends(h, s, event);
    } else {
      MessageFollows(h, s, event);
    }
  }

  /** Only a tick opens an epoch. */
  lemma OnlyTicksAdmit(h: Hashes, s: State, event: Event)
    requires Inv(h, s) && Apply(h, s, event).Running? && !event.TickEvent?
    ensures !Admits(s, Apply(h, s, event).value.state)
  {
    if event.HealthCheckEvent? {
      HealthCheckTouchesClients(h, s, event.checks);
    }
  }

  // ----- runs within an epoch -----

  /** The run stays in the epoch it begins in. */
  predicate WithinEpoch(h: Hashes, s: State, events: seq<Event>)
    requires Run(h, s, events).Running?
  {
    if events == [] then true
    else
      var n := |events| - 1;
      && WithinEpoch(h, s, events[..n])
      && !Admits(Run(h, s, events[..n]).value, Run(h, s, events).value)
  }

  lemma {:induction false} RunDescends(h: Hashes, s: State, events: seq<Event>)
    requires Inv(h, s) && Run(h, s, events).Running? && WithinEpoch(h, s, events)
    ensures Descends(s.epoch, Run(h, s, events).value.epoch)
  {
    if events == [] {
      DescendsBySameIds(s.epoch, s.epoch);
    } else {
      var n := |events| - 1;
      var before := Run(h, s, events[..n]).value;
      RunDescends(h, s, events[..n]);
      RunsAreSafe(h, s, events[..n]);
      ApplyDescends(h, before, events[n]);
      DescendsTransitive(s.epoch, before.epoch, Run(h, s, events).value.epoch);
    }
  }

  /**
  From the moment an epoch admits its clients until the next admission, through failed warmups,
  rounds, cooldowns, pauses and resumes, the listed and the exited clients together are always
  exactly the admitted ones, each as often as admitted.
  */
  lemma ClientsAreConserved(h: Hashes, s: State, pending: seq<NodeId>, now: nat, seed: nat, events: seq<Event>)
    requires Inv(h, s) && s.runState == WaitingForMembers
    ensures Tick(s, Some(pending), now, seed).Running?
    ensures var admitted := Tick(s, Some(pending), now, seed).value.state;
            admitted.runState == Warmup && Run(h, admitted, events).Running? && WithinEpoch(h, admitted, events) ==>
              var t := Run(h, admitted, events).value;
              multiset(Ids(t.epoch.clients)) + multiset(Ids(t.epoch.exitedClients)) == multiset(Ids(Admitted(pending)))
  {
    TickKeepsInv(h, s, Some(pending), now, seed);
    var admitted := Tick(s, Some(pending), now, seed).value.state;
    if admitted.runState == Warmup && Run(h, admitted, events).Running? && WithinEpoch(h, admitted, events) {
      AdmittedEpoch(s, pending, now);
      RunDescends(h, admitted, events);
      DescentFromAdmission(admitted.epoch, Run(h, admitted, events).value.epoch);
    }
  }

  lemma AdmittedEpoch(s: State, pending: seq<NodeId>, now: nat)
    requires s.runState == WaitingForMembers && TickWaitingForMembers(s, Some(pending), now).Running?
    requires TickWaitingForMembers(s, Some(pending), now).value.state.runState == Warmup
    ensures var e := TickWaitingForMembers(s, Some(pending), now).value.state.epoch;
            e.clients == Admitted(pending) && e.exitedClients == []
  {
  }

  lemma DescentFromAdmission(e: EpochState, later: EpochState)
    requires Descends(e, later) && e.exitedClients == []
    ensures multiset(Ids(later.clients)) + multiset(Ids(later.exitedClients)) == multiset(Ids(e.clients))
  {
    assert LeftSince(e, later) == later.exitedClients;
  }

  predicate DistinctIds(clients: seq<Client>) {
    forall i, j | 0 <= i < j < |clients| :: clients[i].id != clients[j].id
  }

  /** If the admitted ids are distinct, the listed ones are, at any time in the epoch. */
  lemma IdsStayDistinct(h: Hashes, s: State, pending: seq<NodeId>, now: nat, seed: nat, events: seq<Event>)
    requires Inv(h, s) && s.runState == WaitingForMembers
    requires forall i, j | 0 <= i < j < |pending| :: pending[i] != pending[j]
    ensures Tick(s, Some(pending), now, seed).Running?
    ensures var admitted := Tick(s, Some(pending), now, seed).value.state;
            admitted.runState == Warmup && Run(h, admitted, events).Running? && WithinEpoch(h, admitted, events) ==>
              DistinctIds(Run(h, admitted, events).value.epoch.clients)
  {
    ClientsAreConserved(h, s, pending, now, seed, events);
    var admitted := Tick(s, Some(pending), now, seed).value.state;
    if admitted.runState == Warmup && Run(h, admitted, events).Running? && WithinEpoch(h, admitted, events) {
      DistinctAdmission(pending, Run(h, admitted, events).value.epoch);
    }
  }

  lemma DistinctAdmission(pending: seq<NodeId>, e: EpochState)
    requires forall i, j | 0 <= i < j < |pending| :: pending[i] != pending[j]
    requires multiset(Ids(e.clients)) + multiset(Ids(e.exitedClients)) == multiset(Ids(Admitted(pending)))
    ensures DistinctIds(e.clients)
  {
    AdmittedAreDistinct(pending);
    PartIsDistinct(Ids(e.clients), Ids(e.exitedClients), Ids(Admitted(pending)));
    DistinctIdsMeaning(e.clients);
  }

  lemma AdmittedAreDistinct(pending: seq<NodeId>)
    requires forall i, j | 0 <= i < j < |pending| :: pending[i] != pending[j]
    ensures Distinct(Ids(Admitted(pending)))
  {
    AdmittedSize(pending);
  }

  // ----- finding a round and its clients again -----

  /** `t` is `age` rounds past a round, which is still where the ring keeps it if it is young enough. */
  predicate Remembers(t: EpochState, round: Round) {
    && t.roundsHead < NUM_STORED_ROUNDS
    && Behind(t, 0).height >= round.height
    && var age := Behind(t, 0).height - round.height;
       age < NUM_STORED_ROUNDS ==> SameRound(Behind(t, age), round)
  }

  lemma RemembersFollows(e: EpochState, later: EpochState, round: Round)
    requires Remembers(e, round)
    requires later.roundsHead < NUM_STORED_ROUNDS && RingFollows(e, later)
    ensures Remembers(later, round)
  {
    var age := Behind(e, 0).height - round.height;
    if forall k: nat | k < NUM_STORED_ROUNDS :: SameRound(Behind(later, k), Behind(e, k)) {
      assert SameRound(Behind(later, 0), Behind(e, 0));
      assert age < NUM_STORED_ROUNDS ==> SameRound(Behind(later, age), Behind(e, age));
    } else {
      assert age + 1 < NUM_STORED_ROUNDS ==> SameRound(Behind(later, age + 1), Behind(e, age));
    }
  }

  lemma {:induction false} RunRemembers(h: Hashes, s: State, events: seq<Event>)
    requires Inv(h, s) && Started(s) && Run(h, s, events).Running? && WithinEpoch(h, s, events)
    ensures Started(Run(h, s, events).value)
    ensures Remembers(Run(h, s, events).value.epoch, Behind(s.epoch, 0))
  {
    if events != [] {
      var n := |events| - 1;
      var before := Run(h, s, events[..n]).value;
      RunRemembers(h, s, events[..n]);
      RunsAreSafe(h, s, events[..n]);
      ApplyStaysStarted(h, before, events[n]);
      ApplyFollows(h, before, events[n]);
      RemembersFollows(before.epoch, Run(h, s, events).value.epoch, Behind(s.epoch, 0));
    }
  }

  /** The historical lookup lists who is still there, then who has left since, in order. */
  lemma {:induction false} HistoricalPrefix(e: EpochState, later: EpochState, upTo: nat)
    requires Descends(e, later) && upTo <= |e.clients|
    ensures HistoricalClients(later, |e.clients|, upTo) == (later.clients + LeftSince(e, later))[..upTo]
  {
    if upTo > 0 {
      HistoricalPrefix(e, later, upTo - 1);
      var all := later.clients + LeftSince(e, later);
      assert ClientAtHistoricalIndex(later, upTo - 1, |e.clients|) == Some(all[upTo - 1]);
      assert all[..upTo] == all[..upTo - 1] + [all[upTo - 1]];
    }
  }

  lemma HistoricalIsPermutation(e: EpochState, later: EpochState)
    requires Descends(e, later)
    ensures GetHistoricalClients(later, |e.clients|) == later.clients + LeftSince(e, later)
    ensures multiset(Ids(GetHistoricalClients(later, |e.clients|))) == multiset(Ids(e.clients))
  {
    HistoricalPrefix(e, later, |e.clients|);
    var all := later.clients + LeftSince(e, later);
    assert all[..|e.clients|] == all;
    IdsOfConcat(later.clients, LeftSince(e, later));
  }

  /** The lookup still answers with the client that stood at the index in `e`. */
  predicate AnswersFor(e: EpochState, later: EpochState, n: nat)
    requires n < |e.clients|
  {
    var client := ClientAtHistoricalIndex(later, n, |e.clients|);
    client.Some? && client.value.id == e.clients[n].id
  }

  predicate AnswersAll(e: EpochState, later: EpochState) {
    forall n | 0 <= n < |e.clients| :: AnswersFor(e, later, n)
  }

  /** Index by index the lookup is right exactly when those who stayed and those who left stand in the old order. */
  lemma HistoricalAgreesIff(e: EpochState, later: EpochState)
    requires Descends(e, later)
    ensures AnswersAll(e, later) <==> Ids(later.clients + LeftSince(e, later)) == Ids(e.clients)
  {
    var all := later.clients + LeftSince(e, later);
    forall n | 0 <= n < |e.clients|
      ensures AnswersFor(e, later, n) <==> Ids(all)[n] == Ids(e.clients)[n]
    {
      assert ClientAtHistoricalIndex(later, n, |e.clients|) == Some(all[n]);
    }
    if AnswersAll(e, later) {
      assert Ids(all) == Ids(e.clients);
    }
  }

  /** Whoever has left since stood behind everybody who stayed, and they left in the order in which they stood. */
  predicate LeftFromTheBack(e: EpochState, later: EpochState)
    requires |e.exitedClients| <= |later.exitedClients|
  {
    var left := Ids(LeftSince(e, later));
    StandLast(left, Ids(e.clients)) && Subsequence(left, Ids(e.clients))
  }

  lemma DistinctIdsMeaning(clients: seq<Client>)
    ensures DistinctIds(clients) <==> Distinct(Ids(clients))
  {
    assert forall i | 0 <= i < |clients| :: Ids(clients)[i] == clients[i].id;
  }

  lemma DescentKeepsIndicesIff(e: EpochState, later: EpochState)
    requires DistinctIds(e.clients) && Descends(e, later)
    ensures AnswersAll(e, later) <==> LeftFromTheBack(e, later)
  {
    HistoricalAgreesIff(e, later);
    IdsOfConcat(later.clients, LeftSince(e, later));
    DistinctIdsMeaning(e.clients);
    SplitIff(Ids(later.clients), Ids(LeftSince(e, later)), Ids(e.clients));
  }

  /**
  Over any run within an epoch, with distinct ids, the lookup answers for every index of the list at its
  start if and only if those who left stood last, and left in the order in which they stood.
  */
  lemma RunKeepsIndicesIff(h: Hashes, s: State, events: seq<Event>)
    requires Inv(h, s) && Run(h, s, events).Running? && WithinEpoch(h, s, events)
    requires DistinctIds(s.epoch.clients)
    ensures var t := Run(h, s, events).value;
            && |s.epoch.exitedClients| <= |t.epoch.exitedClients|
            && (AnswersAll(s.epoch, t.epoch) <==> LeftFromTheBack(s.epoch, t.epoch))
  {
    RunDescends(h, s, events);
    DescentKeepsIndicesIff(s.epoch, Run(h, s, events).value.epoch);
  }

  /** Nobody who stays stands behind somebody who leaves. */
  predicate LeaversStandLast(clients: seq<Client>) {
    forall i, j | 0 <= i < j < |clients| :: clients[i].state != Healthy ==> clients[j].state != Healthy
  }

  lemma {:induction false} LeavingAt(clients: seq<Client>, height: nat, k: nat) returns (i: nat)
    requires k < |Leaving(clients, height)|
    ensures i < |clients| && clients[i].state != Healthy
    ensures Leaving(clients, height)[k] == clients[i].(exitedHeight := height)
  {
    var n := |clients| - 1;
    if k < |Leaving(clients[..n], height)| {
      i := LeavingAt(clients[..n], height, k);
    } else {
      i := n;
    }
  }

  lemma {:induction false} UnhealthyLeave(clients: seq<Client>, height: nat, i: nat) returns (k: nat)
    requires i < |clients| && clients[i].state != Healthy
    ensures k < |Leaving(clients, height)| && Leaving(clients, height)[k].id == clients[i].id
  {
    var n := |clients| - 1;
    if i < n {
      k := UnhealthyLeave(clients[..n], height, i);
    } else {
      k := |Leaving(clients[..n], height)|;
    }
  }

  /** With distinct ids the list tells who is among the leaving. */
  lemma LeavingIffUnhealthy(clients: seq<Client>, height: nat, i: nat)
    requires DistinctIds(clients) && i < |clients|
    ensures clients[i].id in Ids(Leaving(clients, height)) <==> clients[i].state != Healthy
  {
    var ids := Ids(Leaving(clients, height));
    if clients[i].state != Healthy {
      var k := UnhealthyLeave(clients, height, i);
      assert ids[k] == clients[i].id;
    } else if clients[i].id in ids {
      var k :| 0 <= k < |ids| && ids[k] == clients[i].id;
      var j := LeavingAt(clients, height, k);
    }
  }

  /**
  After one purge, with distinct ids, the lookup answers for every index of the list before it if and only if
  nobody who stays stood behind somebody who left.
  */
  lemma PurgeKeepsIndicesIff(e: EpochState, height: nat)
    requires DistinctIds(e.clients) && MoveClientsToExited(e, height).Running?
    ensures AnswersAll(e, MoveClientsToExited(e, height).value) <==> LeaversStandLast(e.clients)
  {
    var later := MoveClientsToExited(e, height).value;
    DescendsByPurge(e, height);
    DescentKeepsIndicesIff(e, later);
    assert LeftSince(e, later) == Leaving(e.clients, height);
    LeavingInOrder(e.clients, height);
    forall i | 0 <= i < |e.clients|
      ensures Ids(e.clients)[i] in Ids(Leaving(e.clients, height)) <==> e.clients[i].state != Healthy
    {
      LeavingIffUnhealthy(e.clients, height, i);
    }
  }

  /**
  The current round of `e` is still found in `later`, at its age, with the data, seed and number of
  clients it started with, and the historical lookup for it returns exactly the clients that were
  live in that round, in some order; or the ring has moved past it.
  */
  predicate Findable(e: EpochState, later: EpochState) {
    && e.roundsHead < NUM_STORED_ROUNDS && later.roundsHead < NUM_STORED_ROUNDS
    && var round := Behind(e, 0);
       && round.height <= Behind(later, 0).height
       && var age := Behind(later, 0).height - round.height;
          age < NUM_STORED_ROUNDS ==>
            && SameRound(Behind(later, age), round)
            && multiset(Ids(GetHistoricalClients(later, Behind(later, age).clientsLen))) == multiset(Ids(e.clients))
  }

  lemma RememberedIsFindable(e: EpochState, later: EpochState)
    requires e.roundsHead < NUM_STORED_ROUNDS && Behind(e, 0).clientsLen == |e.clients|
    requires Remembers(later, Behind(e, 0)) && Descends(e, later)
    ensures Findable(e, later)
  {
    HistoricalIsPermutation(e, later);
  }

  /** Any time later in the epoch a round can be found again, until the ring has moved past it. */
  lemma RoundsStayFindable(h: Hashes, s: State, events: seq<Event>)
    requires Inv(h, s) && InRound(s) && Run(h, s, events).Running? && WithinEpoch(h, s, events)
    ensures Findable(s.epoch, Run(h, s, events).value.epoch)
  {
    RunRemembers(h, s, events);
    RunDescends(h, s, events);
    RememberedIsFindable(s.epoch, Run(h, s, events).value.epoch);
  }

  // ----- the last step of an epoch -----

  /** Once the last step is set, a closing round either ends the epoch or leaves the last step ahead. */
  lemma ClosingRespectsLastStep(h: Hashes, s: State, now: nat, seed: nat)
    requires Inv(h, s) && s.runState == RoundWitness && s.epoch.lastStep != 0
    requires s.TimedOut(now, s.config.roundWitnessTime)
    ensures TickRoundWitness(s, now, seed).Running?
    ensures var t := TickRoundWitness(s, now, seed).value.state;
            || t.runState == Cooldown
            || (t.runState == RoundTrain && t.epoch.lastStep == s.epoch.lastStep
                && t.progress.step == s.progress.step + 1)
    ensures s.progress.step + 1 == s.epoch.lastStep ==>
              TickRoundWitness(s, now, seed).value.state.runState == Cooldown
  {
    ClosingShape(h, s, now, seed);
  }

  lemma TickRespectsLastStep(h: Hashes, s: State, pending: Option<seq<NodeId>>, now: nat, seed: nat)
    requires Inv(h, s) && InRound(s) && s.epoch.lastStep != 0 && Tick(s, pending, now, seed).Running?
    ensures var t := Tick(s, pending, now, seed).value.state;
            t.runState == Cooldown || (InRound(t) && t.epoch.lastStep == s.epoch.lastStep)
  {
    if s.runState == RoundWitness && s.TimedOut(now, s.config.roundWitnessTime) {
      ClosingRespectsLastStep(h, s, now, seed);
    }
  }

  lemma ApplyRespectsLastStep(h: Hashes, s: State, event: Event)
    requires Inv(h, s) && InRound(s) && s.epoch.lastStep != 0 && Apply(h, s, event).Running?
    ensures var t := Apply(h, s, event).value.state;
            t.runState == Cooldown || (InRound(t) && t.epoch.lastStep == s.epoch.lastStep)
  {
    match event
    case TickEvent(pending, now, seed) => TickRespectsLastStep(h, s, pending, now, seed);
    case WitnessEvent(from, message, now) => AddWitnessMeaning(h, s, from, message, now);
    case HealthCheckEvent(checks) => HealthCheckTouchesClients(h, s, checks);
    case _ =>
  }

  /** The run has not reached a cooldown, not even in passing. */
  predicate NeverCools(h: Hashes, s: State, events: seq<Event>)
    requires Run(h, s, events).Running?
  {
    && Run(h, s, events).value.runState != Cooldown
    && (events != [] ==> NeverCools(h, s, events[..|events| - 1]))
  }

  /**
  Once the last step of an epoch is set, at most one more round closes without entering the
  cooldown; so the second one to close, at the latest, enters it.
  */
  lemma {:induction false} LastStepEndsEpoch(h: Hashes, s: State, events: seq<Event>)
    requires Inv(h, s) && InRound(s) && s.epoch.lastStep != 0
    requires Run(h, s, events).Running? && NeverCools(h, s, events)
    ensures InRound(Run(h, s, events).value)
    ensures Run(h, s, events).value.epoch.lastStep == s.epoch.lastStep
    ensures Closings(h, s, events) <= 1
  {
    RunsAreSafe(h, s, events);
    if events != [] {
      var n := |events| - 1;
      LastStepEndsEpoch(h, s, events[..n]);
      RunsAreSafe(h, s, events[..n]);
      ApplyRespectsLastStep(h, Run(h, s, events[..n]).value, events[n]);
    }
    StepBudget(h, s, events);
  }
}
