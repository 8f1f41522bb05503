/** Whole runs of the coordinator: safety, when a run aborts, and the step budget. */
module CoordinatorRuns {
  import opened Wrappers
  import opened Protocol
  import opened CoordinatorModel
  import opened CoordinatorInvariant
  import opened CoordinatorWitnesses
  import opened CoordinatorSteps
  import opened CoordinatorHealth

  // ----- safety -----

  /** The only two ways a reachable coordinator can abort. */
  predicate Aborts(h: Hashes, s: State, event: Event)
    requires s.epoch.roundsHead < NUM_STORED_ROUNDS
  {
    match event
    case WarmupWitnessEvent(from, message, now, seed) =>
      s.runState == Warmup && ScanRunsOff(Behind(s.epoch, 0).witnesses, s.epoch.clients, from)
    case HealthCheckEvent(checks) => CheckAllowed(s) && AsksAfterVerifier(h, s, checks)
    case _ => false
  }

  lemma InitialInv(h: Hashes, s: State)
    requires Initial(s)
    ensures Inv(h, s)
  {
    assert Cursor(s.batchRule, 0) == 0;
  }

  /** Every event panics exactly when `Aborts` says so, and otherwise keeps the invariant. */
  lemma ApplyKeepsInv(h: Hashes, s: State, event: Event)
    requires Inv(h, s)
    ensures Apply(h, s, event).Panicked? <==> Aborts(h, s, event)
    ensures Apply(h, s, event).Running? ==> Inv(h, Apply(h, s, event).value.state)
  {
    match event
    case TickEvent(pending, now, seed) => TickKeepsInv(h, s, pending, now, seed);
    case WarmupWitnessEvent(from, message, now, seed) => WarmupWitnessPanicsIff(h, s, from, message, now, seed);
    case WitnessEvent(from, message, now) => AddWitnessKeepsInv(h, s, from, message, now);
    case HealthCheckEvent(checks) =>
      HealthCheckMeaning(h, s, checks);
      if HealthCheck(h, s, checks).Running? {
        HealthCheckKeepsInv(h, s, checks);
      }
    case WithdrawEvent(index) => WithdrawKeepsInv(h, s, index);
    case WithdrawAllEvent => WithdrawAllKeepsInv(h, s);
    case PauseEvent(now) => PauseKeepsInv(h, s, now);
    case ResumeEvent(now) => ResumeKeepsInv(h, s, now);
  }

  lemma AddWitnessKeepsInv(h: Hashes, s: State, from: NodeId, w: Witness, now: nat)
    requires Inv(h, s)
    ensures AddWitness(h, s, from, w, now).Running?
    ensures Inv(h, AddWitness(h, s, from, w, now).value.state)
  {
    if InRound(s) {
      AddWitnessMeaning(h, s, from, w, now);
      if Admissible(h, s, from, w) {
        WitnessAddedKeepsInv(h, s, from, w, now);
      }
    }
  }

  /** After `n` events the run is still going, and the next event aborts it. */
  predicate AbortsAt(h: Hashes, s: State, events: seq<Event>, n: nat)
    requires n < |events|
  {
    && Run(h, s, events[..n]).Running?
    && var before := Run(h, s, events[..n]).value;
       before.epoch.roundsHead < NUM_STORED_ROUNDS && Aborts(h, before, events[n])
  }

  /** The event at some position aborts the run. */
  predicate AbortsSomewhere(h: Hashes, s: State, events: seq<Event>) {
    if events == [] then false
    else
      var n := |events| - 1;
      AbortsSomewhere(h, s, events[..n]) || AbortsAt(h, s, events, n)
  }

  /** A run reaches only states that satisfy the invariant, and stops early exactly at an abort. */
  lemma {:induction false} RunsAreSafe(h: Hashes, s: State, events: seq<Event>)
    requires Inv(h, s)
    ensures Run(h, s, events).Running? ==> Inv(h, Run(h, s, events).value)
    ensures Run(h, s, events).Panicked? <==> AbortsSomewhere(h, s, events)
  {
    if events != [] {
      var n := |events| - 1;
      RunsAreSafe(h, s, events[..n]);
      var before := Run(h, s, events[..n]);
      if before.Running? {
        ApplyKeepsInv(h, before.value, events[n]);
      }
    }
  }

  /** A run goes on from where its first events lead. */
  lemma OneMoreEvent(h: Hashes, s: State, events: seq<Event>, n: nat)
    requires n < |events| && Run(h, s, events[..n + 1]).Running?
    ensures Run(h, s, events[..n]).Running? && Apply(h, Run(h, s, events[..n]).value, events[n]).Running?
    ensures Run(h, s, events[..n + 1]).value == Apply(h, Run(h, s, events[..n]).value, events[n]).value.state
  {
    assert events[..n + 1][..n] == events[..n];
  }

  lemma {:induction false} RunKeepsConfig(h: Hashes, s: State, events: seq<Event>)
    requires Inv(h, s) && Run(h, s, events).Running?
    ensures Run(h, s, events).value.config == s.config
    ensures Run(h, s, events).value.sequenceLength == s.sequenceLength
    ensures Run(h, s, events).value.batchRule == s.batchRule
  {
    if events != [] {
      var n := |events| - 1;
      RunKeepsConfig(h, s, events[..n]);
      RunsAreSafe(h, s, events[..n]);
      ApplyKeepsConfig(h, Run(h, s, events[..n]).value, events[n]);
    }
  }

  lemma ApplyKeepsConfig(h: Hashes, s: State, event: Event)
    requires Inv(h, s) && Apply(h, s, event).Running?
    ensures SameRun(s, Apply(h, s, event).value.state)
  {
    match event
    case TickEvent(pending, now, seed) => TickKeepsConfig(h, s, pending, now, seed);
    case HealthCheckEvent(checks) => HealthCheckTouchesClients(h, s, checks);
    case WitnessEvent(from, message, now) =>
      if InRound(s) {
        AddWitnessMeaning(h, s, from, message, now);
      }
    case _ =>
  }

  ghost predicate SameRun(s: State, t: State) {
    t.config == s.config && t.sequenceLength == s.sequenceLength && t.batchRule == s.batchRule
  }

  lemma TickKeepsConfig(h: Hashes, s: State, pending: Option<seq<NodeId>>, now: nat, seed: nat)
    requires Inv(h, s) && Tick(s, pending, now, seed).Running?
    ensures SameRun(s, Tick(s, pending, now, seed).value.state)
  {
    if s.runState == RoundWitness {
      ClosingKeepsConfig(h, s, now, seed);
    }
  }

  lemma ClosingKeepsConfig(h: Hashes, s: State, now: nat, seed: nat)
    requires Inv(h, s) && TickRoundWitness(s, now, seed).Running?
    requires s.runState == RoundWitness
    ensures SameRun(s, TickRoundWitness(s, now, seed).value.state)
  {
    if s.TimedOut(now, s.config.roundWitnessTime) {
      ClosingShape(h, s, now, seed);
    }
  }

  // ----- steps -----

  /** An event closes a round: it takes the coordinator out of the witness phase. */
  predicate Closes(before: State, after: State) {
    before.runState == RoundWitness && after.runState != RoundWitness
  }

  lemma ApplyCountsSteps(h: Hashes, s: State, event: Event)
    requires Inv(h, s) && Apply(h, s, event).Running?
    ensures var t := Apply(h, s, event).value.state;
            t.progress.step == s.progress.step + if Closes(s, t) then 1 else 0
  {
    match event
    case TickEvent(pending, now, seed) => TickCountsSteps(h, s, pending, now, seed);
    case WitnessEvent(from, message, now) =>
      if InRound(s) {
        AddWitnessMeaning(h, s, from, message, now);
      }
    case HealthCheckEvent(checks) => HealthCheckTouchesClients(h, s, checks);
    case _ =>
  }

  lemma TickCountsSteps(h: Hashes, s: State, pending: Option<seq<NodeId>>, now: nat, seed: nat)
    requires Inv(h, s) && Tick(s, pending, now, seed).Running?
    ensures var t := Tick(s, pending, now, seed).value.state;
            t.progress.step == s.progress.step + if Closes(s, t) then 1 else 0
  {
    if s.runState == RoundWitness {
      ClosingRaisesStep(h, s, now, seed);
    }
  }

  lemma ClosingRaisesStep(h: Hashes, s: State, now: nat, seed: nat)
    requires Inv(h, s) && s.runState == RoundWitness
    ensures TickRoundWitness(s, now, seed).Running?
    ensures var t := TickRoundWitness(s, now, seed).value.state;
            if s.TimedOut(now, s.config.roundWitnessTime)
            then t.runState != RoundWitness && t.progress.step == s.progress.step + 1
            else t == s
  {
    if s.TimedOut(now, s.config.roundWitnessTime) {
      ClosingShape(h, s, now, seed);
    }
  }

  /** How many rounds a run closes. */
  function Closings(h: Hashes, s: State, events: seq<Event>): nat
    requires Run(h, s, events).Running?
  {
    if events == [] then 0
    else
      var n := |events| - 1;
      Closings(h, s, events[..n])
      + if Closes(Run(h, s, events[..n]).value, Run(h, s, events).value) then 1 else 0
  }

  /** The step is a count of closed rounds, and the configured number of steps bounds it. */
  lemma {:induction false} StepBudget(h: Hashes, s: State, events: seq<Event>)
    requires Inv(h, s) && Run(h, s, events).Running?
    ensures var t := Run(h, s, events).value;
            && t.progress.step == s.progress.step + Closings(h, s, events)
            && Closings(h, s, events) <= s.config.totalSteps - s.progress.step
  {
    RunsAreSafe(h, s, events);
    RunKeepsConfig(h, s, events);
    if events != [] {
      var n := |events| - 1;
      StepBudget(h, s, events[..n]);
      RunsAreSafe(h, s, events[..n]);
      ApplyCountsSteps(h, Run(h, s, events[..n]).value, events[n]);
    }
  }

  lemma FullRunClosesFewerRoundsThanSteps(h: Hashes, s: State, events: seq<Event>)
    requires Initial(s) && Run(h, s, events).Running?
    ensures Closings(h, s, events) <= s.config.totalSteps - 1
  {
    InitialInv(h, s);
    StepBudget(h, s, events);
  }

  // ----- what holds along every run -----

  /** Steps stay below the configured total while there is training to come, and never exceed it. */
  lemma StepsStayInBudget(h: Hashes, s: State, events: seq<Event>)
    requires Initial(s) && Run(h, s, events).Running?
    ensures var t := Run(h, s, events).value;
            && 1 <= t.progress.step <= s.config.totalSteps
            && (t.runState == WaitingForMembers || t.runState == Warmup || InRound(t) ==>
                  t.progress.step < s.config.totalSteps)
            && (t.runState == Finished ==> t.progress.step == s.config.totalSteps)
  {
    InitialInv(h, s);
    RunsAreSafe(h, s, events);
    RunKeepsConfig(h, s, events);
  }

  /**
  A warmup and a round always have the minimum of clients, a round has as many as it recorded at its
  start, and so the election of its witnesses cannot fail for want of clients.
  */
  lemma RoundsHaveEnoughClients(h: Hashes, s: State, events: seq<Event>)
    requires Initial(s) && Run(h, s, events).Running?
    ensures var t := Run(h, s, events).value;
            && t.epoch.roundsHead < NUM_STORED_ROUNDS
            && (t.runState == Warmup || InRound(t) ==> |t.epoch.clients| >= s.config.minClients > 0)
            && (InRound(t) ==>
                  && |t.epoch.clients| == Behind(t.epoch, 0).clientsLen
                  && (s.config.verificationPercent <= 100 ==> FromCoordinator(h, t, 0).Success?))
  {
    InitialInv(h, s);
    RunsAreSafe(h, s, events);
    RunKeepsConfig(h, s, events);
    if InRound(Run(h, s, events).value) {
      ElectionSucceedsInRounds(h, Run(h, s, events).value);
    }
  }

  /**
  In every reachable round the recorded witnesses are clients at distinct indices, each of them elected; so there
  are at most as many as were elected, and as many only when everybody elected has reported.
  */
  lemma RecordedWitnessesAreElected(h: Hashes, s: State, events: seq<Event>)
    requires Initial(s)
    ensures Run(h, s, events).Running? && InRound(Run(h, s, events).value) ==>
              var t := Run(h, s, events).value;
              t.epoch.roundsHead < NUM_STORED_ROUNDS
              && var r := Behind(t.epoch, 0);
                 var elected := WitnessSelection(h, t, r).Elected(h.sha);
                 && DistinctIndices(r.witnesses) && Reporters(r.witnesses) <= elected
                 && |Reporters(r.witnesses)| == |r.witnesses| <= |elected| <= SOLANA_MAX_NUM_WITNESSES
                 && (|r.witnesses| == |elected| <==> Reporters(r.witnesses) == elected)
                 && (t.runState == RoundTrain ==> |r.witnesses| < |elected|)
  {
    InitialInv(h, s);
    RunsAreSafe(h, s, events);
    if Run(h, s, events).Running? && InRound(Run(h, s, events).value) {
      var t := Run(h, s, events).value;
      WitnessesFitElection(h, t, Behind(t.epoch, 0));
      ReportersSize(Behind(t.epoch, 0).witnesses);
    }
  }

  /**
  The head of the ring is the height modulo four, the slots behind it hold the rounds before, each
  closed by a quorum of witnesses and followed without a gap in the data.
  */
  lemma RingHoldsRecentRounds(h: Hashes, s: State, events: seq<Event>, k: nat)
    requires Initial(s) && Run(h, s, events).Running? && k < NUM_STORED_ROUNDS
    ensures var t := Run(h, s, events).value;
            && t.epoch.roundsHead < NUM_STORED_ROUNDS
            && t.epoch.roundsHead == Behind(t.epoch, 0).height % NUM_STORED_ROUNDS
            && (k <= Behind(t.epoch, 0).height ==>
                  && Behind(t.epoch, k).height == Behind(t.epoch, 0).height - k
                  && (k > 0 ==> Linked(t, Behind(t.epoch, k), Behind(t.epoch, k - 1))))
  {
    InitialInv(h, s);
    RunsAreSafe(h, s, events);
    if k <= Behind(Run(h, s, events).value.epoch, 0).height {
      RingSlots(Run(h, s, events).value, k);
    }
  }

  lemma RingSlots(t: State, k: nat)
    requires RingOk(t) && k < NUM_STORED_ROUNDS && k <= Behind(t.epoch, 0).height
    ensures Behind(t.epoch, k).height == Behind(t.epoch, 0).height - k
    ensures k > 0 ==> Linked(t, Behind(t.epoch, k), Behind(t.epoch, k - 1))
  {
    assert SlotOk(t, 1) && SlotOk(t, 2) && SlotOk(t, 3);
  }
}
