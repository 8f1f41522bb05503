/** What time brings about: a pause that was asked for arrives, and a run that is left alone finishes. */
module CoordinatorLiveness {
  import opened Wrappers
  import opened Protocol
  import opened CoordinatorModel
  import opened CoordinatorInvariant
  import opened CoordinatorWitnesses
  import opened CoordinatorSteps
  import opened CoordinatorHealth
  import opened CoordinatorRuns
  import opened CoordinatorDecisions

  // ----- late ticks -----

  /** Every timeout of the current state is over. */
  predicate Late(s: State, now: nat) {
    && s.TimedOut(now, s.config.waitingForMembersExtraTime)
    && s.TimedOut(now, s.config.warmupTime)
    && s.TimedOut(now, s.config.maxRoundTrainTime)
    && s.TimedOut(now, s.config.roundWitnessTime)
    && s.TimedOut(now, s.config.cooldownTime)
  }

  /** A tick after every timeout, with enough clients pending for a new epoch. */
  predicate LateTick(s: State, event: Event) {
    && event.TickEvent? && Late(s, event.now)
    && event.pending.Some? && AsU16(|event.pending.value|) >= s.config.initMinClients
  }

  /** How many late ticks a run has. */
  function LateTicks(h: Hashes, s: State, events: seq<Event>): nat
    requires Run(h, s, events).Running?
  {
    if events == [] then 0
    else
      var n := |events| - 1;
      LateTicks(h, s, events[..n]) + if LateTick(Run(h, s, events[..n]).value, events[n]) then 1 else 0
  }

  /** Only a tick closes a round or ends a cooldown. */
  lemma OnlyTicksClose(h: Hashes, s: State, event: Event)
    requires Inv(h, s) && !event.TickEvent? && Apply(h, s, event).Running?
    requires s.runState == RoundWitness || s.runState == Cooldown
    ensures Apply(h, s, event).value.state.runState == s.runState
  {
    match event
    case WitnessEvent(from, message, now) =>
      if InRound(s) {
        AddWitnessMeaning(h, s, from, message, now);
      }
    case HealthCheckEvent(checks) => HealthCheckTouchesClients(h, s, checks);
    case _ =>
  }

  // ----- a pause that was asked for -----

  /** How many late ticks separate the state from the pause. */
  function PauseRank(s: State): nat {
    match s.runState
    case RoundTrain => 3
    case RoundWitness => 2
    case Cooldown => 1
    case _ => 0
  }

  /** The coordinator is on its way to a pause. */
  predicate Pausing(s: State) {
    s.pendingPause && s.IsActive()
  }

  lemma PausingTick(h: Hashes, s: State, pending: Option<seq<NodeId>>, now: nat, seed: nat)
    requires Inv(h, s) && Pausing(s)
    ensures Tick(s, pending, now, seed).Running?
    ensures var t := Tick(s, pending, now, seed).value.state;
            && t.runState == (match s.runState
                              case RoundTrain =>
                                if s.TimedOut(now, s.config.maxRoundTrainTime) then RoundWitness else RoundTrain
                              case RoundWitness =>
                                if s.TimedOut(now, s.config.roundWitnessTime) then Cooldown else RoundWitness
                              case _ => if s.TimedOut(now, s.config.cooldownTime) then Paused else Cooldown)
            && (t.runState == Paused ==> AllWithdrawn(t.epoch.clients) && t.epoch.coldStartEpoch)
  {
    if s.runState == RoundWitness {
      if s.TimedOut(now, s.config.roundWitnessTime) {
        ClosingDecision(h, s, now, seed);
      }
    } else if s.runState == Cooldown {
      if s.TimedOut(now, s.config.cooldownTime) {
        CooldownPauses(h, s, now);
      }
    }
  }

  /**
  Whatever the event, it leaves the coordinator on its way to the pause, no further from it than before, or it
  is the pause, with everybody withdrawn. Late ticks bring the pause nearer, and so does closing a round.
  */
  lemma PausingStep(h: Hashes, s: State, event: Event)
    requires Inv(h, s) && Pausing(s) && Apply(h, s, event).Running?
    ensures var t := Apply(h, s, event).value.state;
            && Inv(h, t)
            && (if t.runState == Paused
                then !t.pendingPause && AllWithdrawn(t.epoch.clients) && t.epoch.coldStartEpoch
                else Pausing(t))
            && PauseRank(t) + (if LateTick(s, event) then 1 else 0) <= PauseRank(s)
            && (Closes(s, t) ==> t.runState == Cooldown)
  {
    var t := Apply(h, s, event).value.state;
    ApplyKeepsInv(h, s, event);
    ApplyMoves(h, s, event);
    ApplyRecords(h, s, event);
    if event.TickEvent? {
      PausingTick(h, s, event.pending, event.now, event.seed);
    } else if s.runState != RoundTrain {
      OnlyTicksClose(h, s, event);
    }
  }

  /** The run has not reached a pause, not even in passing. */
  predicate NeverPauses(h: Hashes, s: State, events: seq<Event>)
    requires Run(h, s, events).Running?
  {
    if events == [] then s.runState != Paused
    else
      NeverPauses(h, s, events[..|events| - 1]) && Run(h, s, events).value.runState != Paused
  }

  /**
  Once a pause is asked for in an active state, then over any run, until the pause arrives: the request stands,
  the coordinator stays active, so that it neither waits for members nor finishes, at most one more
  round closes, and at most two late ticks go by. So the third late tick brings the pause.
  */
  lemma {:induction false} PauseTakesHold(h: Hashes, s: State, events: seq<Event>)
    requires Inv(h, s) && Pausing(s)
    ensures Run(h, s, events).Running? && NeverPauses(h, s, events) ==>
              var t := Run(h, s, events).value;
              && Inv(h, t) && Pausing(t)
              && Closings(h, s, events) + (if InRound(t) then 1 else 0) <= 1
              && LateTicks(h, s, events) + PauseRank(t) <= PauseRank(s) <= 3
              && PauseRank(t) > 0
  {
    if events != [] && Run(h, s, events).Running? && NeverPauses(h, s, events) {
      var n := |events| - 1;
      PauseTakesHold(h, s, events[..n]);
      PausingStep(h, Run(h, s, events[..n]).value, events[n]);
    }
  }

  /** And when the run then comes to the pause, everybody is withdrawn and the request is cleared. */
  lemma PauseArrives(h: Hashes, s: State, events: seq<Event>, event: Event)
    requires Inv(h, s) && Pausing(s)
    ensures Run(h, s, events).Running? && NeverPauses(h, s, events)
            && Run(h, s, events + [event]).Running? && Run(h, s, events + [event]).value.runState == Paused ==>
              var t := Run(h, s, events + [event]).value;
              !t.pendingPause && AllWithdrawn(t.epoch.clients) && t.epoch.coldStartEpoch
  {
    assert (events + [event])[..|events|] == events;
    PauseTakesHold(h, s, events);
    if Run(h, s, events + [event]).Running? && NeverPauses(h, s, events) {
      PausingStep(h, Run(h, s, events).value, event);
    }
  }

  // ----- a run that is left alone -----

  /** How far the state is from the end of the run: six for every step that is left, and the way to the next one. */
  function Rank(s: State): int {
    6 * (s.config.totalSteps - s.progress.step)
    + match s.runState
      case Cooldown => 5
      case WaitingForMembers => 4
      case Warmup => 3
      case RoundTrain => 2
      case RoundWitness => 1
      case _ => 0
  }

  /** The event asks for no pause, and is no tick that could fail a warmup. */
  predicate Calm(s: State, event: Event) {
    && !event.PauseEvent?
    && (s.runState == Warmup && event.TickEvent? ==> s.TimedOut(event.now, s.config.warmupTime))
  }

  predicate CalmRun(h: Hashes, s: State, events: seq<Event>)
    requires Run(h, s, events).Running?
  {
    if events == [] then true
    else
      var n := |events| - 1;
      CalmRun(h, s, events[..n]) && Calm(Run(h, s, events[..n]).value, events[n])
  }

  /** No pause is pending or taken. */
  predicate Undisturbed(s: State) {
    !s.pendingPause && s.runState != Paused
  }

  /** What a tick makes of the rank. */
  lemma CalmTick(h: Hashes, s: State, event: Event)
    requires Inv(h, s) && Undisturbed(s) && Calm(s, event) && event.TickEvent?
    ensures Apply(h, s, event).Running?
    ensures var t := Apply(h, s, event).value.state;
            && t.config == s.config && t.runState != Paused
            && Rank(t) + (if LateTick(s, event) && s.runState != Finished then 1 else 0) <= Rank(s)
  {
    TickKeepsInv(h, s, event.pending, event.now, event.seed);
    ApplyKeepsConfig(h, s, event);
    ApplyCountsSteps(h, s, event);
    ApplyMoves(h, s, event);
    match s.runState
    case WaitingForMembers => AdmissionDecision(h, s, event.pending, event.now);
    case Warmup => WarmupDecision(h, s, event.now, event.seed);
    case RoundWitness => ClosingRaisesStep(h, s, event.now, event.seed);
    case Cooldown => CooldownDecision(h, s, event.now);
    case _ =>
  }

  /** Every other event leaves the rank, or lowers it. */
  lemma CalmMessage(h: Hashes, s: State, event: Event)
    requires Inv(h, s) && Undisturbed(s) && Calm(s, event) && !event.TickEvent? && Apply(h, s, event).Running?
    ensures var t := Apply(h, s, event).value.state;
            t.config == s.config && t.runState != Paused && Rank(t) <= Rank(s)
  {
    ApplyKeepsConfig(h, s, event);
    ApplyCountsSteps(h, s, event);
    if s.runState == RoundWitness || s.runState == Cooldown {
      OnlyTicksClose(h, s, event);
    }
    match event
    case WitnessEvent(from, message, now) =>
      if InRound(s) {
        AddWitnessMeaning(h, s, from, message, now);
      }
    case HealthCheckEvent(checks) => HealthCheckTouchesClients(h, s, checks);
    case _ =>
  }

  lemma CalmStep(h: Hashes, s: State, event: Event)
    requires Inv(h, s) && Undisturbed(s) && Calm(s, event) && Apply(h, s, event).Running?
    ensures var t := Apply(h, s, event).value.state;
            && Inv(h, t) && Undisturbed(t)
            && (s.runState == Finished ==> t.runState == Finished)
            && Rank(t) + (if LateTick(s, event) && s.runState != Finished then 1 else 0) <= Rank(s)
  {
    ApplyKeepsInv(h, s, event);
    ApplyMoves(h, s, event);
    ApplyRecords(h, s, event);
    if event.TickEvent? {
      CalmTick(h, s, event);
    } else {
      CalmMessage(h, s, event);
    }
  }

  lemma RankIsPositive(h: Hashes, s: State)
    requires Inv(h, s) && Undisturbed(s)
    ensures 0 <= Rank(s) <= 6 * (s.config.totalSteps - s.progress.step) + 5
    ensures s.runState != Finished ==> Rank(s) > 0
  {
  }

  /**
  A run in which nobody asks for a pause and no warmup is cut short by an early tick finishes after as many late
  ticks as its rank says, whatever else happens in between: who reports, who withdraws, who is dropped.
  */
  lemma {:induction false} LateTicksFinish(h: Hashes, s: State, events: seq<Event>)
    requires Inv(h, s) && Undisturbed(s) && Run(h, s, events).Running? && CalmRun(h, s, events)
    ensures var t := Run(h, s, events).value;
            && Inv(h, t) && Undisturbed(t)
            && (t.runState != Finished ==> LateTicks(h, s, events) + Rank(t) <= Rank(s))
            && (LateTicks(h, s, events) >= 6 * (s.config.totalSteps - s.progress.step) + 5 ==> t.runState == Finished)
  {
    RankIsPositive(h, s);
    if events != [] {
      var n := |events| - 1;
      LateTicksFinish(h, s, events[..n]);
      CalmStep(h, Run(h, s, events[..n]).value, events[n]);
    }
    RankIsPositive(h, Run(h, s, events).value);
  }

  /** A time at which the state's timeouts are all over. */
  function LateTime(s: State): nat {
    s.runStateStart + s.config.waitingForMembersExtraTime + s.config.warmupTime + s.config.maxRoundTrainTime
    + s.config.roundWitnessTime + s.config.cooldownTime
  }

  /** A run is its first event and the run from there. */
  lemma {:induction false} RunFromNext(h: Hashes, s: State, event: Event, rest: seq<Event>)
    requires Apply(h, s, event).Running?
    ensures Run(h, s, [event] + rest) == Run(h, Apply(h, s, event).value.state, rest)
  {
    var events := [event] + rest;
    if rest == [] {
      assert events[..0] == [] && events == [event];
    } else {
      var n := |rest| - 1;
      RunFromNext(h, s, event, rest[..n]);
      assert events[..|events| - 1] == [event] + rest[..n] && events[|events| - 1] == rest[n];
    }
  }

  /** One late tick brings a state that is not the end nearer to it. */
  lemma OneTickNearer(h: Hashes, s: State, pending: seq<NodeId>, seed: nat) returns (tick: Event)
    requires Inv(h, s) && Undisturbed(s) && s.runState != Finished && AsU16(|pending|) >= s.config.initMinClients
    ensures tick.TickEvent? && Apply(h, s, tick).Running?
    ensures var t := Apply(h, s, tick).value.state;
            Inv(h, t) && Undisturbed(t) && t.config == s.config && 0 <= Rank(t) < Rank(s)
  {
    tick := TickEvent(Some(pending), LateTime(s), seed);
    assert Late(s, LateTime(s)) && LateTick(s, tick);
    CalmTick(h, s, tick);
    CalmStep(h, s, tick);
    RankIsPositive(h, Apply(h, s, tick).value.state);
  }

  /** Such a run exists: from any state that no pause disturbs, ticks alone bring it to its end in that many. */
  lemma {:induction false} TicksFinish(h: Hashes, s: State, pending: seq<NodeId>, seed: nat)
    returns (events: seq<Event>)
    requires Inv(h, s) && Undisturbed(s) && AsU16(|pending|) >= s.config.initMinClients
    ensures |events| <= Rank(s) && forall n | 0 <= n < |events| :: events[n].TickEvent?
    ensures Run(h, s, events).Running? && Run(h, s, events).value.runState == Finished
    decreases Rank(s)
  {
    RankIsPositive(h, s);
    if s.runState == Finished {
      events := [];
    } else {
      var tick := OneTickNearer(h, s, pending, seed);
      var rest := TicksFinish(h, Apply(h, s, tick).value.state, pending, seed);
      RunFromNext(h, s, tick, rest);
      events := [tick] + rest;
    }
  }
}
