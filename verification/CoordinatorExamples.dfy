/** Runs that end where one would not expect it: for each promise that the coordinator does not keep, an input. */
module CoordinatorExamples {
  import opened Wrappers
  import opened Protocol
  import opened Committees
  import opened CoordinatorModel
  import opened CoordinatorInvariant

  /** One more event at the end of a run. */
  lemma RunOn(h: Hashes, s: State, events: seq<Event>, before: State, event: Event)
    requires Run(h, s, events) == Running(before) && Apply(h, before, event).Running?
    ensures Run(h, s, events + [event]) == Running(Apply(h, before, event).value.state)
  {
    assert (events + [event])[..|events|] == events;
  }

  lemma RunAborts(h: Hashes, s: State, events: seq<Event>, before: State, event: Event)
    requires Run(h, s, events) == Running(before) && Apply(h, before, event).Panicked?
    ensures Run(h, s, events + [event]) == Panicked(Apply(h, before, event).site)
  {
    assert (events + [event])[..|events|] == events;
  }

  // ----- two clients in a warmup -----

  /** A run for two clients and two steps, with everybody a witness. */
  const PAIR_CONFIG: CheckedConfig := Config(1, 1, 1, 1, 0, 0, 2, 2, 2, 0, 1, 1, 0, 1)

  const PAIR_BATCHES: nat -> nat := (dataIndex: nat) => PAIR_CONFIG.BatchSize(dataIndex * 1)

  const PAIR_START: State :=
    State(Paused, PAIR_CONFIG, 1, PAIR_BATCHES, Progress(0, 1, 0),
          EpochState(ZERO_RING, [], [], 0, 0, 0, 0, true, false), 0, false)

  const PAIR_FRESH: State :=
    State(WaitingForMembers, PAIR_CONFIG, 1, PAIR_BATCHES, Progress(0, 1, 0),
          EpochState(ZERO_RING, [], [], 0, 0, 0, 0, true, false), 1, false)

  const PAIR: seq<NodeId> := [[1], [2]]

  const PAIR_WARM: State :=
    State(Warmup, PAIR_CONFIG, 1, PAIR_BATCHES, Progress(0, 1, 0),
          EpochState(ZERO_RING, [NewClient([1]), NewClient([2])], [], 0, 1, 0, 9, true, false), 9, false)

  const PAIR_EVENTS: seq<Event> := [ResumeEvent(1), TickEvent(Some(PAIR), 9, 0)]

  lemma PairWarmsUp(h: Hashes)
    ensures Initial(PAIR_START)
    ensures Run(h, PAIR_START, PAIR_EVENTS) == Running(PAIR_WARM)
  {
    assert PAIR[..1] == [[1]] && PAIR[..1][..0] == [];
    assert Admitted(PAIR[..1]) == [NewClient([1])];
    assert Admitted(PAIR) == [NewClient([1]), NewClient([2])];
    RunOn(h, PAIR_START, [], PAIR_START, ResumeEvent(1));
    RunOn(h, PAIR_START, [] + [ResumeEvent(1)], PAIR_FRESH, TickEvent(Some(PAIR), 9, 0));
    assert PAIR_EVENTS == ([] + [ResumeEvent(1)]) + [TickEvent(Some(PAIR), 9, 0)];
  }

  /**
  Warmup messages are recorded without a look at the index they carry. Two clients suffice: one
  sends an index that names nobody, and the other's message makes the coordinator abort.
  */
  lemma WarmupCanAbort(h: Hashes, w: Witness, now: nat)
    requires w.proof.index >= 2
    ensures var first, second := WarmupWitnessEvent([1], w, now, 0), WarmupWitnessEvent([2], w, now, 0);
            Run(h, PAIR_START, PAIR_EVENTS + [first] + [second]) == Panicked(ClientOutOfBounds)
  {
    var first, second := WarmupWitnessEvent([1], w, now, 0), WarmupWitnessEvent([2], w, now, 0);
    PairWarmsUp(h);
    RunOn(h, PAIR_START, PAIR_EVENTS, PAIR_WARM, first);
    RunAborts(h, PAIR_START, PAIR_EVENTS + [first], Apply(h, PAIR_WARM, first).value.state, second);
  }

  /** The pair's warmup with some messages recorded. */
  function PairHeard(witnesses: seq<Witness>): State {
    PAIR_WARM.(epoch := PAIR_WARM.epoch.(
      rounds := [ZERO_ROUND.(witnesses := witnesses), ZERO_ROUND, ZERO_ROUND, ZERO_ROUND]))
  }

  /** The first message of a warmup that waits for more is recorded. */
  lemma FirstMessageIsRecorded(s: State, from: NodeId, w: Witness, now: nat, seed: nat)
    requires s.runState == Warmup && s.epoch.roundsHead == 0 && s.epoch.rounds[0] == ZERO_ROUND
    requires s.WitnessTarget() != 1
    ensures AddWarmupWitness(s, from, w, now, seed)
            == Running(Step(s.(epoch := SetCurrentRound(s.epoch, ZERO_ROUND.(witnesses := [w]))), Accepted))
  {
    assert [] + [w] == [w];
  }

  lemma PairHears(h: Hashes, w: Witness, now: nat)
    ensures Apply(h, PAIR_WARM, WarmupWitnessEvent([1], w, now, 0)) == Running(Step(PairHeard([w]), Accepted))
  {
    FirstMessageIsRecorded(PAIR_WARM, [1], w, now, 0);
    assert SetCurrentRound(PAIR_WARM.epoch, ZERO_ROUND.(witnesses := [w])) == PairHeard([w]).epoch;
  }

  lemma PairRejects(h: Hashes, w: Witness, v: Witness, now: nat)
    requires w.proof.index == 1
    ensures Apply(h, PairHeard([w]), WarmupWitnessEvent([2], v, now, 0))
            == Running(Step(PairHeard([w]), Rejected(DuplicateWitness)))
  {
  }

  lemma PairTrains(h: Hashes, w: Witness, v: Witness, now: nat)
    requires w.proof.index == 1
    ensures var again := Apply(h, PairHeard([w]), WarmupWitnessEvent([1], v, now, 0));
            again.Running? && again.value.reply == Accepted && again.value.state.runState == RoundTrain
  {
    assert AlreadyReported([w][1..], PairHeard([w]).epoch.clients, [1]) == Running(false);
  }

  /**
  One client can report twice and keep the other from reporting: its first message carries the other's index, the
  other's own message is then rejected as a duplicate, and a second message of the first starts training.
  */
  lemma OneClientCanReportForTwo(h: Hashes, w: Witness, v: Witness, now: nat)
    requires w.proof.index == 1
    ensures Run(h, PAIR_START, PAIR_EVENTS + [WarmupWitnessEvent([1], w, now, 0)]) == Running(PairHeard([w]))
    ensures Apply(h, PairHeard([w]), WarmupWitnessEvent([2], v, now, 0))
            == Running(Step(PairHeard([w]), Rejected(DuplicateWitness)))
    ensures var again := Apply(h, PairHeard([w]), WarmupWitnessEvent([1], v, now, 0));
            again.Running? && again.value.reply == Accepted && again.value.state.runState == RoundTrain
  {
    PairWarmsUp(h);
    PairHears(h, w, now);
    RunOn(h, PAIR_START, PAIR_EVENTS, PAIR_WARM, WarmupWitnessEvent([1], w, now, 0));
    PairRejects(h, w, v, now);
    PairTrains(h, w, v, now);
  }

  /** The two clients, in the given states of health. */
  function PairWith(first: ClientState, second: ClientState): State {
    PAIR_WARM.(epoch := PAIR_WARM.epoch.(clients := [Client([1], first, 0), Client([2], second, 0)]))
  }

  lemma PairLeaves(h: Hashes)
    ensures Apply(h, PAIR_WARM, WithdrawEvent(1)) == Running(Step(PairWith(Healthy, Withdrawn), Accepted))
  {
    assert WithdrawAt(PAIR_WARM.epoch.clients, 1) == PairWith(Healthy, Withdrawn).epoch.clients;
  }

  lemma PairPauses(h: Hashes, now: nat)
    ensures Apply(h, PairWith(Healthy, Withdrawn), PauseEvent(now))
            == Running(Step(PairWith(Withdrawn, Withdrawn), Rejected(InvalidWithdraw)))
  {
    var clients, after := PairWith(Healthy, Withdrawn).epoch.clients, PairWith(Withdrawn, Withdrawn).epoch.clients;
    assert WithdrawAt(clients, 0) == after;
    assert WithdrawFrom(after, 1) == (after, false);
  }

  /** A pause can be rejected half way: the second client has left, and the first is withdrawn for nothing. */
  lemma RejectedPauseCanWithdraw(h: Hashes, now: nat)
    ensures Run(h, PAIR_START, PAIR_EVENTS + [WithdrawEvent(1)]) == Running(PairWith(Healthy, Withdrawn))
    ensures Apply(h, PairWith(Healthy, Withdrawn), PauseEvent(now))
            == Running(Step(PairWith(Withdrawn, Withdrawn), Rejected(InvalidWithdraw)))
  {
    PairWarmsUp(h);
    PairLeaves(h);
    RunOn(h, PAIR_START, PAIR_EVENTS, PAIR_WARM, WithdrawEvent(1));
    PairPauses(h, now);
  }

  // ----- three clients who send their own index -----

  const TRIO_CONFIG: CheckedConfig := Config(100, 1, 1, 1, 0, 100, 9, 3, 1, 0, 1, 1, 0, 1)

  const TRIO_BATCHES: nat -> nat := (dataIndex: nat) => TRIO_CONFIG.BatchSize(dataIndex * 1)

  const TRIO: seq<NodeId> := [[1], [2], [3]]

  const TRIO_LATER: seq<Client> := [NewClient([2]), NewClient([3])]

  const TRIO_EXITED: seq<Client> := [Client([1], Withdrawn, 0)]

  function TrioClients(first: ClientState): seq<Client> {
    [Client([1], first, 0), NewClient([2]), NewClient([3])]
  }

  function TrioAt(runState: RunState, epoch: EpochState, since: nat): State {
    State(runState, TRIO_CONFIG, 1, TRIO_BATCHES, Progress(0, 1, 0), epoch, since, false)
  }

  function TrioStart(runState: RunState, since: nat): State {
    TrioAt(runState, EpochState(ZERO_RING, [], [], 0, 0, 0, 0, true, false), since)
  }

  function TrioWarm(witnesses: seq<Witness>, clients: seq<Client>, exited: seq<Client>): State {
    TrioAt(Warmup, EpochState([ZERO_ROUND.(witnesses := witnesses), ZERO_ROUND, ZERO_ROUND, ZERO_ROUND], clients,
                              exited, 0, 1, 0, 9, true, false), 9)
  }

  lemma TrioPurges()
    ensures Staying(TrioClients(Withdrawn)) == TRIO_LATER
    ensures Leaving(TrioClients(Withdrawn), 0) == TRIO_EXITED
  {
    var all := TrioClients(Withdrawn);
    assert all[..2][..1] == [all[0]] && all[..2] == [all[0], all[1]] && all[..2][..1][..0] == [];
    assert Staying(all[..2][..1]) == [] && Leaving(all[..2][..1], 0) == [all[0]];
    assert Staying(all[..2]) == [all[1]] && Leaving(all[..2], 0) == [all[0]];
  }

  lemma TrioAdmitted()
    ensures Admitted(TRIO) == TrioClients(Healthy)
  {
    assert TRIO[..2] == [[1], [2]] && TRIO[..2][..1] == [[1]] && TRIO[..2][..1][..0] == [];
    assert Admitted(TRIO[..2][..1]) == [NewClient([1])];
    assert Admitted(TRIO[..2]) == [NewClient([1]), NewClient([2])];
  }

  lemma TrioWarmsUp(h: Hashes)
    ensures Apply(h, TrioStart(WaitingForMembers, 1), TickEvent(Some(TRIO), 9, 0))
            == Running(Step(TrioWarm([], TrioClients(Healthy), []), Ticked))
  {
    TrioAdmitted();
  }

  lemma TrioReports(h: Hashes, w: Witness)
    ensures Apply(h, TrioWarm([], TrioClients(Healthy), []), WarmupWitnessEvent([3], w, 9, 0))
            == Running(Step(TrioWarm([w], TrioClients(Healthy), []), Accepted))
  {
    var s := TrioWarm([], TrioClients(Healthy), []);
    FirstMessageIsRecorded(s, [3], w, 9, 0);
    assert SetCurrentRound(s.epoch, ZERO_ROUND.(witnesses := [w])) == TrioWarm([w], TrioClients(Healthy), []).epoch;
  }

  lemma TrioLeaves(h: Hashes, w: Witness)
    ensures Apply(h, TrioWarm([w], TrioClients(Healthy), []), WithdrawEvent(0))
            == Running(Step(TrioWarm([w], TrioClients(Withdrawn), []), Accepted))
  {
    assert WithdrawAt(TrioClients(Healthy), 0) == TrioClients(Withdrawn);
  }

  lemma TrioShrinks(h: Hashes, w: Witness)
    ensures Apply(h, TrioWarm([w], TrioClients(Withdrawn), []), TickEvent(None, 9, 0))
            == Running(Step(TrioWarm([w], TRIO_LATER, TRIO_EXITED), Ticked))
  {
    TrioPurges();
    assert [] + TRIO_EXITED == TRIO_EXITED;
  }

  /** The third client reports, the first withdraws, and the tick that purges it makes the report stale. */
  function TrioEvents(w: Witness): seq<Event> {
    [] + [ResumeEvent(1)] + [TickEvent(Some(TRIO), 9, 0)] + [WarmupWitnessEvent([3], w, 9, 0)] + [WithdrawEvent(0)]
    + [TickEvent(None, 9, 0)]
  }

  lemma TrioRuns(h: Hashes, w: Witness)
    ensures Run(h, TrioStart(Paused, 0), TrioEvents(w)) == Running(TrioWarm([w], TRIO_LATER, TRIO_EXITED))
  {
    var s := TrioStart(Paused, 0);
    RunOn(h, s, [], s, ResumeEvent(1));
    var events := [] + [ResumeEvent(1)];
    TrioWarmsUp(h);
    RunOn(h, s, events, TrioStart(WaitingForMembers, 1), TickEvent(Some(TRIO), 9, 0));
    events := events + [TickEvent(Some(TRIO), 9, 0)];
    TrioReports(h, w);
    RunOn(h, s, events, TrioWarm([], TrioClients(Healthy), []), WarmupWitnessEvent([3], w, 9, 0));
    events := events + [WarmupWitnessEvent([3], w, 9, 0)];
    TrioLeaves(h, w);
    RunOn(h, s, events, TrioWarm([w], TrioClients(Healthy), []), WithdrawEvent(0));
    events := events + [WithdrawEvent(0)];
    TrioShrinks(h, w);
    RunOn(h, s, events, TrioWarm([w], TrioClients(Withdrawn), []), TickEvent(None, 9, 0));
  }

  lemma TrioAborts(h: Hashes, w: Witness, v: Witness)
    requires w.proof.index == 2
    ensures Apply(h, TrioWarm([w], TRIO_LATER, TRIO_EXITED), WarmupWitnessEvent([2], v, 9, 0))
            == Panicked(ClientOutOfBounds)
  {
  }

  /** Even messages that carry their sender's own index can make a later one abort, when somebody leaves the warmup. */
  lemma HonestWarmupCanAbort(h: Hashes, w: Witness, v: Witness)
    requires w.proof.index == 2
    ensures Initial(TrioStart(Paused, 0))
    ensures TrioStart(Paused, 0).config.verificationPercent == 0
    ensures Run(h, TrioStart(Paused, 0), TrioEvents(w) + [WarmupWitnessEvent([2], v, 9, 0)])
            == Panicked(ClientOutOfBounds)
  {
    TrioRuns(h, w);
    TrioAborts(h, w, v);
    RunAborts(h, TrioStart(Paused, 0), TrioEvents(w), TrioWarm([w], TRIO_LATER, TRIO_EXITED),
              WarmupWitnessEvent([2], v, 9, 0));
  }

  // ----- three clients in a round that one of them leaves -----

  const TRIO_ROUND: Round := Round([], 0, 0, 0, 3, 0)

  const TRIO_RING: Ring := [TRIO_ROUND, ZERO_ROUND, ZERO_ROUND, ZERO_ROUND]

  const TRIO_ALONE: seq<Client> := [Client([2], Withdrawn, 0), Client([3], Withdrawn, 0)]

  function TrioIn(runState: RunState, clients: seq<Client>, since: nat): State {
    TrioAt(runState, EpochState(TRIO_RING, clients, [], 0, 1, 0, 9, true, false), since)
  }

  /** The round has closed with nobody to witness it; the first client has left, the others are withdrawn. */
  function TrioClosed(): State {
    State(Cooldown, TRIO_CONFIG, 1, TRIO_BATCHES, Progress(0, 2, 0),
          EpochState(TRIO_RING, TRIO_ALONE, TRIO_EXITED, 0, 1, 0, 9, false, false), 400, false)
  }

  lemma TrioStartsTraining(h: Hashes)
    ensures Apply(h, TrioWarm([], TrioClients(Healthy), []), TickEvent(None, 200, 0))
            == Running(Step(TrioIn(RoundTrain, TrioClients(Healthy), 200), Ticked))
  {
    var s := TrioWarm([], TrioClients(Healthy), []);
    assert SetCurrentRound(s.epoch, TRIO_ROUND) == TrioIn(RoundTrain, TrioClients(Healthy), 200).epoch;
  }

  lemma TrioLeavesRound(h: Hashes)
    ensures Apply(h, TrioIn(RoundTrain, TrioClients(Healthy), 200), WithdrawEvent(0))
            == Running(Step(TrioIn(RoundTrain, TrioClients(Withdrawn), 200), Accepted))
  {
    assert WithdrawAt(TrioClients(Healthy), 0) == TrioClients(Withdrawn);
  }

  lemma TrioWithdraws()
    ensures WithdrawFrom(TRIO_LATER, 0) == (TRIO_ALONE, true)
  {
    var half := WithdrawAt(TRIO_LATER, 0);
    assert half == [TRIO_ALONE[0], TRIO_LATER[1]] && WithdrawAt(half, 1) == TRIO_ALONE;
    assert WithdrawFrom(TRIO_ALONE, 2) == (TRIO_ALONE, true);
    assert WithdrawFrom(half, 1) == (TRIO_ALONE, true);
  }

  lemma TrioCloses(h: Hashes)
    ensures Apply(h, TrioIn(RoundWitness, TrioClients(Withdrawn), 300), TickEvent(None, 400, 0))
            == Running(Step(TrioClosed(), Ticked))
  {
    var s := TrioIn(RoundWitness, TrioClients(Withdrawn), 300);
    TrioPurges();
    assert [] + TRIO_EXITED == TRIO_EXITED;
    assert TickRoundWitness(s, 400, 0) == AfterClosing(TrioClosing(), 0, 400, 0);
    TrioCoolsDown();
  }

  /** The first client has gone, and what follows is not decided yet. */
  function TrioClosing(): State {
    TrioClosed().(runState := RoundWitness, runStateStart := 300,
                  epoch := TrioClosed().epoch.(clients := TRIO_LATER))
  }

  lemma TrioCoolsDown()
    ensures AfterClosing(TrioClosing(), 0, 400, 0) == Running(Step(TrioClosed(), Ticked))
  {
    TrioWithdraws();
    assert SetCurrentRound(TrioClosed().epoch, TRIO_ROUND) == TrioClosed().epoch;
  }

  const TRIO_TRAINING: seq<Event> :=
    [] + [ResumeEvent(1)] + [TickEvent(Some(TRIO), 9, 0)] + [TickEvent(None, 200, 0)]

  const TRIO_ROUND_EVENTS: seq<Event> :=
    TRIO_TRAINING + [WithdrawEvent(0)] + [TickEvent(None, 300, 0)] + [TickEvent(None, 400, 0)]

  lemma TrioTrainingRuns(h: Hashes)
    ensures Run(h, TrioStart(Paused, 0), TRIO_TRAINING) == Running(TrioIn(RoundTrain, TrioClients(Healthy), 200))
  {
    var s := TrioStart(Paused, 0);
    RunOn(h, s, [], s, ResumeEvent(1));
    var events := [] + [ResumeEvent(1)];
    TrioWarmsUp(h);
    RunOn(h, s, events, TrioStart(WaitingForMembers, 1), TickEvent(Some(TRIO), 9, 0));
    events := events + [TickEvent(Some(TRIO), 9, 0)];
    TrioStartsTraining(h);
    RunOn(h, s, events, TrioWarm([], TrioClients(Healthy), []), TickEvent(None, 200, 0));
  }

  lemma TrioTimesOut(h: Hashes)
    ensures Apply(h, TrioIn(RoundTrain, TrioClients(Withdrawn), 200), TickEvent(None, 300, 0))
            == Running(Step(TrioIn(RoundWitness, TrioClients(Withdrawn), 300), Ticked))
  {
  }

  lemma TrioRoundRuns(h: Hashes)
    ensures Run(h, TrioStart(Paused, 0), TRIO_ROUND_EVENTS) == Running(TrioClosed())
  {
    var s, events := TrioStart(Paused, 0), TRIO_TRAINING;
    TrioTrainingRuns(h);
    TrioLeavesRound(h);
    RunOn(h, s, events, TrioIn(RoundTrain, TrioClients(Healthy), 200), WithdrawEvent(0));
    events := events + [WithdrawEvent(0)];
    TrioTimesOut(h);
    RunOn(h, s, events, TrioIn(RoundTrain, TrioClients(Withdrawn), 200), TickEvent(None, 300, 0));
    events := events + [TickEvent(None, 300, 0)];
    TrioCloses(h);
    RunOn(h, s, events, TrioIn(RoundWitness, TrioClients(Withdrawn), 300), TickEvent(None, 400, 0));
  }

  /** After a round that its first client left, the lookup for that round answers with others at every index. */
  lemma HistoricalIndicesCanShift(h: Hashes)
    ensures Run(h, TrioStart(Paused, 0), TRIO_ROUND_EVENTS) == Running(TrioClosed())
    ensures var e := TrioClosed().epoch;
            && Behind(e, 0).clientsLen == 3
            && forall n | 0 <= n < 3 ::
                 ClientAtHistoricalIndex(e, n, 3).Some? && ClientAtHistoricalIndex(e, n, 3).value.id != TRIO[n]
  {
    TrioRoundRuns(h);
  }

  // ----- one client on its own, witness and verifier -----

  const SOLO_CONFIG: CheckedConfig := Config(1, 1, 1, 1, 0, 100, 9, 1, 1, 0, 1, 1, 100, 1)

  const SOLO_BATCHES: nat -> nat := (dataIndex: nat) => SOLO_CONFIG.BatchSize(dataIndex * 1)

  const SOLO: seq<NodeId> := [[1]]

  const SOLO_CLIENTS: seq<Client> := [NewClient([1])]

  function SoloAt(runState: RunState, step: nat, epoch: EpochState, since: nat): State {
    State(runState, SOLO_CONFIG, 1, SOLO_BATCHES, Progress(0, step, 0), epoch, since, false)
  }

  function SoloStart(runState: RunState, since: nat): State {
    SoloAt(runState, 1, EpochState(ZERO_RING, [], [], 0, 0, 0, 0, true, false), since)
  }

  function SoloWarm(): State {
    SoloAt(Warmup, 1, EpochState(ZERO_RING, SOLO_CLIENTS, [], 0, 1, 0, 3, true, false), 3)
  }

  function SoloRound(height: nat, seed: nat, witnesses: seq<Witness>): Round {
    Round(witnesses, height, seed, height, 1, 0)
  }

  /** The round at `height`, with its witness or without, and the closed rounds before it. */
  function SoloRing(w: Witness, seed: nat, height: nat, witnesses: seq<Witness>): Ring {
    if height == 0 then [SoloRound(0, seed, witnesses), ZERO_ROUND, ZERO_ROUND, ZERO_ROUND]
    else if height == 1 then [SoloRound(0, seed, [w]), SoloRound(1, seed, witnesses), ZERO_ROUND, ZERO_ROUND]
    else [SoloRound(0, seed, [w]), SoloRound(1, seed, [w]), SoloRound(2, seed, witnesses), ZERO_ROUND]
  }

  function SoloEpoch(w: Witness, seed: nat, height: nat, witnesses: seq<Witness>): EpochState {
    EpochState(SoloRing(w, seed, height, witnesses), SOLO_CLIENTS, [], height, 1, 0, 3, height == 0, false)
  }

  function SoloIn(runState: RunState, w: Witness, seed: nat, height: nat, witnesses: seq<Witness>): State {
    SoloAt(runState, height + 1, SoloEpoch(w, seed, height, witnesses), 5 + 2 * height)
  }

  /** The proof of the only client, whatever the hash: it is every round's witness. */
  predicate IsOnlyWitness(proof: WitnessProof) {
    proof.position == 0 && proof.index == 0 && proof.isWitness
  }

  lemma OnlyNodeIsWitness(selection: CommitteeSelection, h: Hashes, proof: WitnessProof)
    requires selection.totalNodes == 1 && selection.witnessNodes == 0 && IsOnlyWitness(proof)
    ensures selection.VerifyWitness(h.sha, proof)
  {
    assert selection.Shuffled(h.sha, proof.index, WITNESS_SALT) == 0;
  }

  /** A message with a verified proof of election is recorded. */
  lemma VerifiedIsRecorded(h: Hashes, s: State, from: NodeId, w: Witness, now: nat, selection: CommitteeSelection)
    requires s.runState == RoundTrain && FromCoordinator(h, s, 0) == Success(selection)
    requires VerifyClient(from, w.proof.index, s.epoch.clients) && w.proof.index < selection.totalNodes
    requires selection.VerifyWitness(h.sha, w.proof) && w.proof.isWitness
    ensures Apply(h, s, WitnessEvent(from, w, now)) == RecordWitness(s, from, w, now)
  {
  }

  /** With everybody a verifier, the first client's own proof makes a health check abort. */
  lemma VerifierAborts(h: Hashes, s: State, id: NodeId, round: Round) returns (duty: CommitteeProof)
    requires s.runState == RoundTrain && s.epoch.roundsHead < NUM_STORED_ROUNDS
    requires s.epoch.rounds[s.epoch.roundsHead].height >= 2 && PreviousRound(s.epoch) == Some(round)
    requires s.config.verificationPercent == 100 && s.config.witnessNodes <= round.clientsLen < U64_MAX
    requires round.tieBreakerTasks == 0 && round.clientsLen > 0
    requires s.epoch.clients != [] && s.epoch.clients[0].id == id
    ensures duty.committee == Verifier && duty.index == 0
    ensures Apply(h, s, HealthCheckEvent([(id, duty)])) == Panicked(CommitteeDuty)
  {
    var n := round.clientsLen;
    assert n * 100 / 100 == n;
    var selection := FromCoordinator(h, s, -1).value;
    duty := selection.GetCommittee(h.sha, 0);
    VerifyCommitteeIffIssued(selection, h.sha, duty);
    assert IsHealthy(h, s, id, duty) == Panicked(CommitteeDuty);
  }

  lemma SoloStays(height: nat)
    ensures Staying(SOLO_CLIENTS) == SOLO_CLIENTS && Leaving(SOLO_CLIENTS, height) == []
    ensures Admitted(SOLO) == SOLO_CLIENTS
  {
    assert SOLO_CLIENTS[..0] == [] && SOLO[..0] == [];
  }

  lemma SoloRecords(w: Witness, seed: nat, height: nat)
    requires IsOnlyWitness(w.proof) && height <= 1
    ensures RecordWitness(SoloIn(RoundTrain, w, seed, height, []), [1], w, 5 + 2 * height)
            == Running(Step(SoloIn(RoundWitness, w, seed, height, [w]), Accepted))
  {
    assert [] + [w] == [w];
    assert SetCurrentRound(SoloEpoch(w, seed, height, []), SoloRound(height, seed, [w]))
        == SoloEpoch(w, seed, height, [w]);
  }

  lemma SoloElects(h: Hashes, w: Witness, seed: nat, height: nat)
    returns (selection: CommitteeSelection)
    requires height <= 1
    ensures FromCoordinator(h, SoloIn(RoundTrain, w, seed, height, []), 0) == Success(selection)
    ensures selection.totalNodes == 1 && selection.witnessNodes == 0
  {
    selection := FromCoordinator(h, SoloIn(RoundTrain, w, seed, height, []), 0).value;
  }

  lemma SoloReports(h: Hashes, w: Witness, seed: nat, height: nat)
    requires IsOnlyWitness(w.proof) && height <= 1
    ensures Apply(h, SoloIn(RoundTrain, w, seed, height, []), WitnessEvent([1], w, 5 + 2 * height))
            == Running(Step(SoloIn(RoundWitness, w, seed, height, [w]), Accepted))
  {
    var selection := SoloElects(h, w, seed, height);
    OnlyNodeIsWitness(selection, h, w.proof);
    VerifiedIsRecorded(h, SoloIn(RoundTrain, w, seed, height, []), [1], w, 5 + 2 * height, selection);
    SoloRecords(w, seed, height);
  }

  /** The state in which the round that closes decides on the next one. */
  function SoloClosing(w: Witness, seed: nat, height: nat): State {
    SoloAt(RoundWitness, height + 2, SoloEpoch(w, seed, height, [w]).(firstRound := false), 5 + 2 * height)
  }

  lemma SoloContinues(w: Witness, seed: nat, height: nat)
    requires height <= 1
    ensures AfterClosing(SoloClosing(w, seed, height), 1, 7 + 2 * height, seed)
            == Running(Step(SoloIn(RoundTrain, w, seed, height + 1, []), Ticked))
  {
    var s := SoloClosing(w, seed, height);
    assert SOLO_BATCHES(height) == 1;
    assert SoloRing(w, seed, height, [w])[height + 1 := SoloRound(height + 1, seed, [])]
        == SoloRing(w, seed, height + 1, []);
    assert StartRoundTrain(s, 7 + 2 * height, seed, 0) == Running(SoloIn(RoundTrain, w, seed, height + 1, []));
  }

  lemma SoloCloses(h: Hashes, w: Witness, seed: nat, height: nat)
    requires height <= 1
    ensures Apply(h, SoloIn(RoundWitness, w, seed, height, [w]), TickEvent(None, 7 + 2 * height, seed))
            == Running(Step(SoloIn(RoundTrain, w, seed, height + 1, []), Ticked))
  {
    var s := SoloIn(RoundWitness, w, seed, height, [w]);
    SoloPurges(w, seed, height);
    SoloContinues(w, seed, height);
    assert TickRoundWitness(s, 7 + 2 * height, seed)
        == AfterClosing(SoloClosing(w, seed, height), 1, 7 + 2 * height, seed);
  }

  lemma SoloPurges(w: Witness, seed: nat, height: nat)
    ensures var e := SoloEpoch(w, seed, height, [w]).(firstRound := false); MoveClientsToExited(e, height) == Running(e)
  {
    SoloStays(height);
  }

  lemma SoloWarmsUp(h: Hashes)
    ensures Apply(h, SoloStart(WaitingForMembers, 1), TickEvent(Some(SOLO), 3, 0)) == Running(Step(SoloWarm(), Ticked))
  {
    SoloStays(0);
  }

  lemma SoloTrains(h: Hashes, w: Witness, seed: nat)
    ensures Apply(h, SoloWarm(), TickEvent(None, 5, seed))
            == Running(Step(SoloIn(RoundTrain, w, seed, 0, []), Ticked))
  {
    assert SetCurrentRound(SoloWarm().epoch, SoloRound(0, seed, [])) == SoloEpoch(w, seed, 0, []);
  }

  lemma SoloStartsTraining(h: Hashes, w: Witness, seed: nat) returns (events: seq<Event>)
    ensures Run(h, SoloStart(Paused, 0), events) == Running(SoloIn(RoundTrain, w, seed, 0, []))
  {
    var s := SoloStart(Paused, 0);
    RunOn(h, s, [], s, ResumeEvent(1));
    events := [] + [ResumeEvent(1)];
    SoloWarmsUp(h);
    RunOn(h, s, events, SoloStart(WaitingForMembers, 1), TickEvent(Some(SOLO), 3, 0));
    events := events + [TickEvent(Some(SOLO), 3, 0)];
    SoloTrains(h, w, seed);
    RunOn(h, s, events, SoloWarm(), TickEvent(None, 5, seed));
    events := events + [TickEvent(None, 5, seed)];
  }

  lemma SoloRoundRuns(h: Hashes, w: Witness, seed: nat, height: nat, events: seq<Event>) returns (more: seq<Event>)
    requires IsOnlyWitness(w.proof) && height <= 1
    requires Run(h, SoloStart(Paused, 0), events) == Running(SoloIn(RoundTrain, w, seed, height, []))
    ensures Run(h, SoloStart(Paused, 0), more) == Running(SoloIn(RoundTrain, w, seed, height + 1, []))
  {
    var s, report := SoloStart(Paused, 0), WitnessEvent([1], w, 5 + 2 * height);
    var tick := TickEvent(None, 7 + 2 * height, seed);
    SoloReports(h, w, seed, height);
    RunOn(h, s, events, SoloIn(RoundTrain, w, seed, height, []), report);
    more := events + [report];
    SoloCloses(h, w, seed, height);
    RunOn(h, s, more, SoloIn(RoundWitness, w, seed, height, [w]), tick);
    more := more + [tick];
  }

  /** Rounds follow each other for one client, with any hash and seed. */
  lemma SoloReachesOne(h: Hashes, w: Witness, seed: nat) returns (events: seq<Event>)
    requires IsOnlyWitness(w.proof)
    ensures Run(h, SoloStart(Paused, 0), events) == Running(SoloIn(RoundTrain, w, seed, 1, []))
  {
    var before := SoloStartsTraining(h, w, seed);
    events := SoloRoundRuns(h, w, seed, 0, before);
  }

  lemma SoloReachesTwo(h: Hashes, w: Witness, seed: nat) returns (events: seq<Event>)
    requires IsOnlyWitness(w.proof)
    ensures Run(h, SoloStart(Paused, 0), events) == Running(SoloIn(RoundTrain, w, seed, 2, []))
  {
    var before := SoloReachesOne(h, w, seed);
    events := SoloRoundRuns(h, w, seed, 1, before);
  }

  /** At height one the round before the previous one is a slot that was never used. */
  lemma HeightOneFindsUnusedSlot(h: Hashes, w: Witness, seed: nat) returns (events: seq<Event>, t: State)
    requires IsOnlyWitness(w.proof)
    ensures Initial(SoloStart(Paused, 0)) && Run(h, SoloStart(Paused, 0), events) == Running(t)
    ensures t.epoch.roundsHead < NUM_STORED_ROUNDS && Behind(t.epoch, 0).height == 1
    ensures PreviousPreviousRound(t.epoch) == Some(ZERO_ROUND)
  {
    events := SoloReachesOne(h, w, seed);
    t := SoloIn(RoundTrain, w, seed, 1, []);
  }

  /** At height two a health check on the only client, a verifier, aborts the coordinator. */
  lemma HealthCheckCanAbort(h: Hashes, w: Witness, seed: nat) returns (events: seq<Event>, duty: CommitteeProof)
    requires IsOnlyWitness(w.proof)
    ensures Initial(SoloStart(Paused, 0))
    ensures Run(h, SoloStart(Paused, 0), events + [HealthCheckEvent([([1], duty)])]) == Panicked(CommitteeDuty)
  {
    var s := SoloIn(RoundTrain, w, seed, 2, []);
    events := SoloReachesTwo(h, w, seed);
    duty := VerifierAborts(h, s, [1], SoloRound(1, seed, [w]));
    RunAborts(h, SoloStart(Paused, 0), events, s, HealthCheckEvent([([1], duty)]));
  }
}
