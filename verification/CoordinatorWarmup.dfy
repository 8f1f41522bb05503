/** The warmup: when training starts, and which messages are harmless. */
module CoordinatorWarmup {
  import opened Protocol
  import opened Committees
  import opened CoordinatorModel
  import opened CoordinatorInvariant
  import opened CoordinatorWitnesses
  import opened CoordinatorSteps
  import opened CoordinatorHealth
  import opened CoordinatorRuns
  import opened CoordinatorDecisions

  // ----- when training starts -----

  /** No recorded index names the sender, and there is room. */
  predicate WarmupAccepts(s: State, from: NodeId)
    requires s.epoch.roundsHead < NUM_STORED_ROUNDS
  {
    var r := Behind(s.epoch, 0);
    !Reported(r.witnesses, s.epoch.clients, from) && |r.witnesses| < SOLANA_MAX_NUM_WITNESSES
  }

  /** One more message brings the number that ends the warmup. */
  predicate OneShort(s: State)
    requires s.epoch.roundsHead < NUM_STORED_ROUNDS
  {
    |Behind(s.epoch, 0).witnesses| + 1 == s.WitnessTarget()
  }

  /**
  A warmup message is accepted exactly when no recorded index names its sender and there is room; the index it
  carries itself is not looked at. Accepted, it is recorded, unless it completes the number that the
  coordinator waits for: then training starts at once, with the given seed and nothing recorded.
  Rejected, it changes nothing.
  */
  lemma WarmupMessageDecision(h: Hashes, s: State, from: NodeId, w: Witness, now: nat, seed: nat)
    requires Inv(h, s) && s.runState == Warmup
    requires !ScanRunsOff(Behind(s.epoch, 0).witnesses, s.epoch.clients, from)
    ensures AddWarmupWitness(s, from, w, now, seed).Running?
    ensures var r := Behind(s.epoch, 0);
            var step := AddWarmupWitness(s, from, w, now, seed).value;
            && (step.reply == Accepted <==> WarmupAccepts(s, from))
            && (step.reply != Accepted ==> step.state == s && step.reply.Rejected?)
            && (step.reply == Accepted ==>
                  if OneShort(s) then
                    && step.state.runState == RoundTrain && step.state.epoch.clients == s.epoch.clients
                    && step.state.epoch.roundsHead < NUM_STORED_ROUNDS
                    && Behind(step.state.epoch, 0).randomSeed == seed
                    && Behind(step.state.epoch, 0).witnesses == []
                    && Behind(step.state.epoch, 0).dataIndex == s.progress.epochStartDataIndex
                  else
                    step.state
                    == s.(epoch := SetCurrentRound(s.epoch, r.(witnesses := r.witnesses + [w]))))
  {
    var r := Behind(s.epoch, 0);
    AlreadyReportedMeaning(r.witnesses, s.epoch.clients, from);
    var s1 := s.(epoch := SetCurrentRound(s.epoch, r.(witnesses := r.witnesses + [w])));
    StartRoundTrainRuns(s1, now, seed);
  }

  /** The event is what the warmup ends with: its time is over, or the last message that it waits for is there. */
  predicate StartsTraining(s: State, event: Event)
    requires s.epoch.roundsHead < NUM_STORED_ROUNDS
  {
    match event
    case TickEvent(_, now, _) => s.TimedOut(now, s.config.warmupTime)
    case WarmupWitnessEvent(from, _, _, _) => WarmupAccepts(s, from) && OneShort(s)
    case _ => false
  }

  /** Whatever the event: it takes the coordinator from the warmup into training exactly in these two cases. */
  lemma TrainingStartsIff(h: Hashes, s: State, event: Event)
    requires Inv(h, s) && s.runState == Warmup && Apply(h, s, event).Running?
    ensures Apply(h, s, event).value.state.runState == RoundTrain <==> StartsTraining(s, event)
  {
    match event
    case TickEvent(_, now, seed) => WarmupDecision(h, s, now, seed);
    case WarmupWitnessEvent(from, message, now, seed) =>
      WarmupWitnessPanicsIff(h, s, from, message, now, seed);
      WarmupMessageDecision(h, s, from, message, now, seed);
    case HealthCheckEvent(checks) => HealthCheckTouchesClients(h, s, checks);
    case _ =>
  }

  // ----- one message each -----

  lemma ReportedOneMore(witnesses: seq<Witness>, w: Witness, clients: seq<Client>, from: NodeId)
    ensures Reported(witnesses + [w], clients, from)
            <==> Reported(witnesses, clients, from) || VerifyClient(from, w.proof.index, clients)
  {
    var all := witnesses + [w];
    assert all[|witnesses|] == w;
    assert forall i | 0 <= i < |witnesses| :: all[i] == witnesses[i];
  }

  /**
  A sender is held to one message exactly when that message carried the sender's own index. With any other index
  on record the same sender is heard again, for as long as there is room.
  */
  lemma SecondMessageIsDuplicateIff(h: Hashes, s: State, from: NodeId, w: Witness, v: Witness, now: nat, later: nat,
                                    seed: nat)
    requires Inv(h, s) && s.runState == Warmup && InRange(Behind(s.epoch, 0).witnesses, s.epoch.clients)
    requires w.proof.index < |s.epoch.clients| && WarmupAccepts(s, from) && !OneShort(s)
    ensures AddWarmupWitness(s, from, w, now, seed).Running?
    ensures var first := AddWarmupWitness(s, from, w, now, seed).value;
            && first.reply == Accepted
            && AddWarmupWitness(first.state, from, v, later, seed).Running?
            && (AddWarmupWitness(first.state, from, v, later, seed).value.reply == Rejected(DuplicateWitness)
                <==> VerifyClient(from, w.proof.index, s.epoch.clients))
  {
    var witnesses := Behind(s.epoch, 0).witnesses;
    InRangeScans(witnesses, s.epoch.clients, from);
    WarmupMessageDecision(h, s, from, w, now, seed);
    var s1 := AddWarmupWitness(s, from, w, now, seed).value.state;
    RecordedKeepsInv(h, s, from, w, now, seed);
    InRangeScans(witnesses + [w], s.epoch.clients, from);
    AlreadyReportedMeaning(witnesses + [w], s.epoch.clients, from);
    ReportedOneMore(witnesses, w, s.epoch.clients, from);
    WarmupMessageDecision(h, s1, from, v, later, seed);
  }

  lemma RecordedKeepsInv(h: Hashes, s: State, from: NodeId, w: Witness, now: nat, seed: nat)
    requires Inv(h, s) && s.runState == Warmup && InRange(Behind(s.epoch, 0).witnesses, s.epoch.clients)
    requires WarmupAccepts(s, from) && !OneShort(s)
    ensures AddWarmupWitness(s, from, w, now, seed).Running?
    ensures var s1 := AddWarmupWitness(s, from, w, now, seed).value.state;
            && Inv(h, s1) && s1.runState == Warmup && s1.epoch.clients == s.epoch.clients
            && Behind(s1.epoch, 0).witnesses == Behind(s.epoch, 0).witnesses + [w]
  {
    InRangeScans(Behind(s.epoch, 0).witnesses, s.epoch.clients, from);
    WarmupWitnessPanicsIff(h, s, from, w, now, seed);
    WarmupMessageDecision(h, s, from, w, now, seed);
  }

  // ----- harmless messages -----

  /** The messages recorded in the warmup that the event comes to, if it comes to one. */
  function RecordedBefore(s: State): seq<Witness>
    requires s.epoch.roundsHead < NUM_STORED_ROUNDS
  {
    if s.runState == Warmup then Behind(s.epoch, 0).witnesses else []
  }

  /** In a warmup the recorded messages are those from before, and perhaps the one that just came. */
  lemma WarmupRecords(h: Hashes, s: State, event: Event)
    requires Inv(h, s) && Apply(h, s, event).Running?
    requires Apply(h, s, event).value.state.runState == Warmup
    ensures var t := Apply(h, s, event).value.state;
            && t.epoch.roundsHead < NUM_STORED_ROUNDS
            && (Behind(t.epoch, 0).witnesses == RecordedBefore(s)
                || (event.WarmupWitnessEvent? && s.runState == Warmup && t.epoch.clients == s.epoch.clients
                    && Behind(t.epoch, 0).witnesses == RecordedBefore(s) + [event.message]))
  {
    ApplyMoves(h, s, event);
    ApplyKeepsInv(h, s, event);
    if event.TickEvent? {
      if s.runState == Warmup {
        WarmupTickKeepsRounds(h, s, event.now, event.seed);
      } else {
        AdmissionDecision(h, s, event.pending, event.now);
      }
    } else if event.WarmupWitnessEvent? {
      WarmupWitnessPanicsIff(h, s, event.from, event.message, event.now, event.seed);
      WarmupMessageDecision(h, s, event.from, event.message, event.now, event.seed);
    } else {
      OthersKeepRounds(h, s, event);
    }
  }

  lemma OthersKeepRounds(h: Hashes, s: State, event: Event)
    requires !event.TickEvent? && !event.WarmupWitnessEvent? && Apply(h, s, event).Running?
    requires Apply(h, s, event).value.state.runState == Warmup
    ensures var t := Apply(h, s, event).value.state;
            s.runState == Warmup && t.epoch.rounds == s.epoch.rounds && t.epoch.roundsHead == s.epoch.roundsHead
  {
    if event.HealthCheckEvent? {
      HealthCheckTouchesClients(h, s, event.checks);
    }
  }

  lemma WarmupTickKeepsRounds(h: Hashes, s: State, now: nat, seed: nat)
    requires Inv(h, s) && s.runState == Warmup
    ensures TickWarmup(s, now, seed).Running?
    ensures var t := TickWarmup(s, now, seed).value.state;
            t.runState == Warmup ==>
              t.epoch.rounds == s.epoch.rounds && t.epoch.roundsHead == s.epoch.roundsHead
              && t.epoch.clients == Staying(s.epoch.clients)
  {
    WarmupDecision(h, s, now, seed);
    PurgeCannotOverflow(s.epoch, 0);
  }

  /** The recorded warmup messages all carry an index below the minimum of clients, so none can go stale. */
  predicate IndicesBelowMinimum(s: State)
    requires s.epoch.roundsHead < NUM_STORED_ROUNDS
  {
    forall i | 0 <= i < |RecordedBefore(s)| :: RecordedBefore(s)[i].proof.index < s.config.minClients
  }

  lemma IndicesStayBelowMinimum(h: Hashes, s: State, event: Event)
    requires Inv(h, s) && IndicesBelowMinimum(s) && Apply(h, s, event).Running?
    requires event.WarmupWitnessEvent? ==> event.message.proof.index < s.config.minClients
    ensures Inv(h, Apply(h, s, event).value.state)
    ensures Apply(h, s, event).value.state.config == s.config
    ensures IndicesBelowMinimum(Apply(h, s, event).value.state)
  {
    ApplyKeepsInv(h, s, event);
    ApplyKeepsConfig(h, s, event);
    if Apply(h, s, event).value.state.runState == Warmup {
      WarmupRecords(h, s, event);
    }
  }

  lemma {:induction false} RunKeepsIndicesBelowMinimum(h: Hashes, s: State, events: seq<Event>)
    requires Inv(h, s) && IndicesBelowMinimum(s) && s.config.verificationPercent == 0
    requires forall n | 0 <= n < |events| ::
               events[n].WarmupWitnessEvent? ==> events[n].message.proof.index < s.config.minClients
    ensures Run(h, s, events).Running?
    ensures var t := Run(h, s, events).value; Inv(h, t) && t.config == s.config && IndicesBelowMinimum(t)
  {
    if events != [] {
      var n := |events| - 1;
      RunKeepsIndicesBelowMinimum(h, s, events[..n]);
      var before := Run(h, s, events[..n]).value;
      NoAbortBelowMinimum(h, before, events[n]);
      IndicesStayBelowMinimum(h, before, events[n]);
    }
  }

  lemma NoAbortBelowMinimum(h: Hashes, s: State, event: Event)
    requires Inv(h, s) && IndicesBelowMinimum(s) && s.config.verificationPercent == 0
    ensures Apply(h, s, event).Running?
  {
    ApplyKeepsInv(h, s, event);
    match event
    case WarmupWitnessEvent(from, _, _, _) =>
      if s.runState == Warmup {
        assert RecordedBefore(s) == Behind(s.epoch, 0).witnesses;
        InRangeScans(Behind(s.epoch, 0).witnesses, s.epoch.clients, from);
      }
    case HealthCheckEvent(checks) => NoVerifiersNoPanic(h, s, checks);
    case _ =>
  }

  /**
  From the initial state a coordinator without verifiers never panics, on any run in which the warmup messages
  carry an index below the minimum of clients: not on a full exited list, an unchanged state, a
  quorum of nobody, or any index.
  */
  lemma NoPanicWithoutVerifiers(h: Hashes, s: State, events: seq<Event>)
    requires Initial(s) && s.config.verificationPercent == 0
    requires forall n | 0 <= n < |events| ::
               events[n].WarmupWitnessEvent? ==> events[n].message.proof.index < s.config.minClients
    ensures Run(h, s, events).Running?
  {
    InitialInv(h, s);
    RunKeepsIndicesBelowMinimum(h, s, events);
  }

  // ----- warmups that nobody leaves -----

  /** A warmup message carries the index of some listed client, and nobody withdraws during a warmup. */
  predicate Considerate(s: State, event: Event) {
    s.runState == Warmup ==>
      match event
      case WarmupWitnessEvent(_, message, _, _) => message.proof.index < |s.epoch.clients|
      case WithdrawEvent(_) => false
      case WithdrawAllEvent => false
      case _ => true
  }

  predicate ConsiderateRun(h: Hashes, s: State, events: seq<Event>) {
    if events == [] then true
    else
      var n := |events| - 1;
      && ConsiderateRun(h, s, events[..n])
      && (Run(h, s, events[..n]).Running? ==> Considerate(Run(h, s, events[..n]).value, events[n]))
  }

  /** In a warmup everybody listed is healthy, and every recorded index names somebody. */
  predicate NobodyLeaves(s: State)
    requires s.epoch.roundsHead < NUM_STORED_ROUNDS
  {
    s.runState == Warmup ==> AllHealthy(s.epoch.clients) && InRange(Behind(s.epoch, 0).witnesses, s.epoch.clients)
  }

  lemma ClientsStayInWarmup(h: Hashes, s: State, event: Event)
    requires Inv(h, s) && NobodyLeaves(s) && Considerate(s, event) && Apply(h, s, event).Running?
    requires Apply(h, s, event).value.state.runState == Warmup
    ensures var t := Apply(h, s, event).value.state;
            AllHealthy(t.epoch.clients) && (s.runState == Warmup ==> t.epoch.clients == s.epoch.clients)
  {
    ApplyMoves(h, s, event);
    match event
    case TickEvent(pending, now, seed) =>
      if s.runState == Warmup {
        WarmupTickKeepsRounds(h, s, now, seed);
        HealthyStay(s.epoch.clients, 0);
      } else {
        AdmissionDecision(h, s, pending, now);
      }
    case WarmupWitnessEvent(_, _, _, _) => WarmupRecords(h, s, event);
    case HealthCheckEvent(checks) => HealthCheckTouchesClients(h, s, checks);
    case PauseEvent(_) => WithdrawFromSucceedsIff(s.epoch.clients, 0);
    case _ =>
  }

  lemma NobodyLeavesStep(h: Hashes, s: State, event: Event)
    requires Inv(h, s) && NobodyLeaves(s) && Considerate(s, event) && Apply(h, s, event).Running?
    ensures Inv(h, Apply(h, s, event).value.state)
    ensures NobodyLeaves(Apply(h, s, event).value.state)
  {
    ApplyKeepsInv(h, s, event);
    if Apply(h, s, event).value.state.runState == Warmup {
      WarmupRecords(h, s, event);
      ClientsStayInWarmup(h, s, event);
    }
  }

  /**
  Nor does it panic on any run in which nobody withdraws during a warmup and every warmup message carries the
  index of a client that is listed when it comes, such as its sender's own.
  */
  lemma {:induction false} NoPanicWhenNobodyLeaves(h: Hashes, s: State, events: seq<Event>)
    requires Initial(s) && s.config.verificationPercent == 0 && ConsiderateRun(h, s, events)
    ensures Run(h, s, events).Running?
    ensures Inv(h, Run(h, s, events).value) && NobodyLeaves(Run(h, s, events).value)
  {
    if events == [] {
      InitialInv(h, s);
    } else {
      var n := |events| - 1;
      NoPanicWhenNobodyLeaves(h, s, events[..n]);
      var before := Run(h, s, events[..n]).value;
      InitialInv(h, s);
      RunKeepsConfig(h, s, events[..n]);
      NoAbortWhenNobodyLeaves(h, before, events[n]);
      NobodyLeavesStep(h, before, events[n]);
    }
  }

  lemma NoAbortWhenNobodyLeaves(h: Hashes, s: State, event: Event)
    requires Inv(h, s) && NobodyLeaves(s) && s.config.verificationPercent == 0
    ensures Apply(h, s, event).Running?
  {
    ApplyKeepsInv(h, s, event);
    match event
    case WarmupWitnessEvent(from, _, _, _) =>
      if s.runState == Warmup {
        InRangeScans(Behind(s.epoch, 0).witnesses, s.epoch.clients, from);
      }
    case HealthCheckEvent(checks) => NoVerifiersNoPanic(h, s, checks);
    case _ =>
  }

  // ----- warmups in which everybody reports for themselves -----

  /** Considerate, and every warmup message carries its sender's own index. */
  predicate Honest(s: State, event: Event) {
    && Considerate(s, event)
    && (s.runState == Warmup && event.WarmupWitnessEvent? ==>
          VerifyClient(event.from, event.message.proof.index, s.epoch.clients))
  }

  predicate HonestRun(h: Hashes, s: State, events: seq<Event>) {
    if events == [] then true
    else
      var n := |events| - 1;
      && HonestRun(h, s, events[..n])
      && (Run(h, s, events[..n]).Running? ==> Honest(Run(h, s, events[..n]).value, events[n]))
  }

  /** The recorded messages of a warmup name clients with pairwise distinct ids. */
  predicate DistinctSenders(s: State)
    requires s.epoch.roundsHead < NUM_STORED_ROUNDS
  {
    s.runState == Warmup ==>
      var witnesses := Behind(s.epoch, 0).witnesses;
      && InRange(witnesses, s.epoch.clients)
      && forall i, j | 0 <= i < j < |witnesses| ::
           s.epoch.clients[witnesses[i].proof.index].id != s.epoch.clients[witnesses[j].proof.index].id
  }

  lemma RecordedIsAccepted(h: Hashes, s: State, event: Event)
    requires Inv(h, s) && s.runState == Warmup && event.WarmupWitnessEvent? && Apply(h, s, event).Running?
    requires Apply(h, s, event).value.state.runState == Warmup
    requires Behind(Apply(h, s, event).value.state.epoch, 0).witnesses == Behind(s.epoch, 0).witnesses + [event.message]
    ensures WarmupAccepts(s, event.from)
  {
    WarmupWitnessPanicsIff(h, s, event.from, event.message, event.now, event.seed);
    WarmupMessageDecision(h, s, event.from, event.message, event.now, event.seed);
    assert |Behind(s.epoch, 0).witnesses + [event.message]| > |Behind(s.epoch, 0).witnesses|;
  }

  lemma HonestStep(h: Hashes, s: State, event: Event)
    requires Inv(h, s) && NobodyLeaves(s) && DistinctSenders(s) && Honest(s, event) && Apply(h, s, event).Running?
    ensures Inv(h, Apply(h, s, event).value.state)
    ensures DistinctSenders(Apply(h, s, event).value.state)
  {
    var t := Apply(h, s, event).value.state;
    ApplyKeepsInv(h, s, event);
    if t.runState == Warmup {
      WarmupRecords(h, s, event);
      ClientsStayInWarmup(h, s, event);
      if Behind(t.epoch, 0).witnesses != RecordedBefore(s) {
        RecordedIsAccepted(h, s, event);
        OneMoreSender(RecordedBefore(s), event.message, s.epoch.clients, event.from);
      }
    }
  }

  lemma OneMoreSender(witnesses: seq<Witness>, w: Witness, clients: seq<Client>, from: NodeId)
    requires InRange(witnesses, clients) && VerifyClient(from, w.proof.index, clients)
    requires !Reported(witnesses, clients, from)
    ensures forall i | 0 <= i < |witnesses| ::
              clients[witnesses[i].proof.index].id != clients[w.proof.index].id
  {
    forall i | 0 <= i < |witnesses|
      ensures clients[witnesses[i].proof.index].id != clients[w.proof.index].id
    {
      assert !VerifyClient(from, witnesses[i].proof.index, clients);
    }
  }

  /**
  On any run in which nobody withdraws during a warmup and everybody sends their own index, the messages recorded
  in a warmup come from pairwise distinct senders.
  */
  lemma {:induction false} HonestSendersAreDistinct(h: Hashes, s: State, events: seq<Event>)
    requires Initial(s)
    ensures Run(h, s, events).Running? && HonestRun(h, s, events) ==>
              var t := Run(h, s, events).value; Inv(h, t) && NobodyLeaves(t) && DistinctSenders(t)
  {
    if events == [] {
      InitialInv(h, s);
    } else if Run(h, s, events).Running? && HonestRun(h, s, events) {
      var n := |events| - 1;
      HonestSendersAreDistinct(h, s, events[..n]);
      var before := Run(h, s, events[..n]).value;
      NobodyLeavesStep(h, before, events[n]);
      HonestStep(h, before, events[n]);
    }
  }

  /**
  So on such a run a message that starts training is the one that completes the number the coordinator waits for
  with as many different clients.
  */
  lemma HonestTrainingHasReporters(h: Hashes, s: State, events: seq<Event>, event: Event)
    requires Initial(s)
    ensures Run(h, s, events).Running? && HonestRun(h, s, events) ==>
              var t := Run(h, s, events).value;
              t.runState == Warmup && event.WarmupWitnessEvent? && Honest(t, event)
              && Apply(h, t, event).Running? && Apply(h, t, event).value.state.runState == RoundTrain ==>
                |Reporters(Behind(t.epoch, 0).witnesses + [event.message])| == t.WitnessTarget()
  {
    HonestSendersAreDistinct(h, s, events);
    if Run(h, s, events).Running? && HonestRun(h, s, events) {
      var t := Run(h, s, events).value;
      if t.runState == Warmup && event.WarmupWitnessEvent? && Honest(t, event)
         && Apply(h, t, event).Running? && Apply(h, t, event).value.state.runState == RoundTrain
      {
        TrainingStartsIff(h, t, event);
        OneMoreSender(Behind(t.epoch, 0).witnesses, event.message, t.epoch.clients, event.from);
        SendersAreReporters(t, event.message);
      }
    }
  }

  lemma SendersAreReporters(t: State, w: Witness)
    requires t.runState == Warmup && t.epoch.roundsHead < NUM_STORED_ROUNDS && DistinctSenders(t)
    requires w.proof.index < |t.epoch.clients|
    requires forall i | 0 <= i < |Behind(t.epoch, 0).witnesses| ::
               t.epoch.clients[Behind(t.epoch, 0).witnesses[i].proof.index].id != t.epoch.clients[w.proof.index].id
    ensures |Reporters(Behind(t.epoch, 0).witnesses + [w])| == |Behind(t.epoch, 0).witnesses| + 1
  {
    ReportersSize(Behind(t.epoch, 0).witnesses + [w]);
  }
}
