/**
What every reachable state of the coordinator satisfies, and that every event keeps it.
*/
module CoordinatorInvariant {
  import opened Bytes
  import opened Protocol
  import opened Committees
  import opened CoordinatorModel

  // ----- the data cursor, from scratch -----

  /** The data consumed by the first `n` steps of a run. */
  function Cursor(batchRule: nat -> nat, n: nat): nat {
    if n == 0 then 0
    else
      var before := Cursor(batchRule, n - 1);
      before + batchRule(before)
  }

  /** Where the data of the state's current step starts. */
  function StepCursor(s: State): nat
    requires s.progress.step >= 1
  {
    Cursor(s.batchRule, s.progress.step - 1)
  }

  // ----- the ring of rounds -----

  /** The round `k` slots behind the head. */
  function Behind(e: EpochState, k: nat): Round
    requires e.roundsHead < NUM_STORED_ROUNDS && k < NUM_STORED_ROUNDS
  {
    e.rounds[if e.roundsHead >= k then e.roundsHead - k else e.roundsHead + NUM_STORED_ROUNDS - k]
  }

  /** A round that ended with enough witnesses, and at least one. */
  predicate Closed(config: Config, r: Round) {
    && 0 < |r.witnesses|
    && Quorum(config, |r.witnesses|).Running?
    && |r.witnesses| >= Quorum(config, |r.witnesses|).value
  }

  /** `older` is the round directly before `newer`. */
  predicate Linked(s: State, older: Round, newer: Round) {
    && older.height + 1 == newer.height
    && newer.dataIndex == older.dataIndex + s.BatchAt(older.dataIndex)
    && Closed(s.config, older)
    && older.clientsLen >= newer.clientsLen
    && older.tieBreakerTasks == 0
  }

  /** Slot `k` is linked to the one after it, or the epoch has not reached it yet. */
  predicate SlotOk(s: State, k: nat)
    requires s.epoch.roundsHead < NUM_STORED_ROUNDS && 0 < k < NUM_STORED_ROUNDS
  {
    if k <= Behind(s.epoch, 0).height then Linked(s, Behind(s.epoch, k), Behind(s.epoch, k - 1))
    else Behind(s.epoch, k) == ZERO_ROUND
  }

  predicate RingOk(s: State) {
    && s.epoch.roundsHead < NUM_STORED_ROUNDS
    && s.epoch.roundsHead == Behind(s.epoch, 0).height % NUM_STORED_ROUNDS
    && Behind(s.epoch, 0).tieBreakerTasks == 0
    && SlotOk(s, 1) && SlotOk(s, 2) && SlotOk(s, 3)
  }

  // ----- witnesses -----

  /** The selection that elects the witnesses of a round; its verifier share plays no part in that. */
  function WitnessSelection(h: Hashes, s: State, r: Round): CommitteeSelection {
    CommitteeSelection(0, r.clientsLen * s.config.verificationPercent / 100, r.clientsLen,
                       s.config.witnessNodes, h.sha(ToLittleEndian(r.randomSeed, 8)))
  }

  /** The recorded witnesses were elected, and no two of them are the same client. */
  ghost predicate WitnessesOk(h: Hashes, s: State, r: Round) {
    && (forall i | 0 <= i < |r.witnesses| ::
          && r.witnesses[i].proof.index < |s.epoch.clients|
          && r.witnesses[i].proof.index in WitnessSelection(h, s, r).Elected(h.sha))
    && (forall i, j | 0 <= i < j < |r.witnesses| ::
          s.epoch.clients[r.witnesses[i].proof.index].id != s.epoch.clients[r.witnesses[j].proof.index].id)
  }

  // ----- stages -----

  predicate Waiting(s: State)
    requires s.progress.step >= 1
  {
    s.progress.epochStartDataIndex == StepCursor(s)
  }

  predicate WarmingUp(s: State)
    requires s.epoch.roundsHead < NUM_STORED_ROUNDS
  {
    && s.epoch.firstRound
    && Behind(s.epoch, 0).height == 0
    && s.epoch.startStep == s.progress.step
    && s.epoch.lastStep == 0
    && |s.epoch.clients| >= s.config.minClients
  }

  ghost predicate Training(h: Hashes, s: State)
    requires s.epoch.roundsHead < NUM_STORED_ROUNDS && s.progress.step >= 1
  {
    var r := Behind(s.epoch, 0);
    && s.epoch.firstRound == (r.height == 0)
    && s.progress.step == s.epoch.startStep + r.height
    && r.dataIndex == StepCursor(s)
    && |s.epoch.clients| == r.clientsLen >= s.config.minClients
    && (s.epoch.lastStep == 0 || s.progress.step < s.epoch.lastStep <= s.progress.step + 2)
    && WitnessesOk(h, s, r)
    && (s.runState == RoundTrain ==> |r.witnesses| < WitnessSelection(h, s, r).ElectedCount())
  }

  predicate CoolingDown(s: State)
    requires s.epoch.roundsHead < NUM_STORED_ROUNDS && s.progress.step >= 1
  {
    var r := Behind(s.epoch, 0);
    && s.progress.step == s.epoch.startStep + r.height + 1
    && r.dataIndex + s.BatchAt(r.dataIndex) == StepCursor(s)
  }

  ghost predicate StageOk(h: Hashes, s: State)
    requires s.epoch.roundsHead < NUM_STORED_ROUNDS && s.progress.step >= 1
  {
    match s.runState
    case Uninitialized => false
    case WaitingForMembers => s.progress.step < s.config.totalSteps && Waiting(s)
    case Warmup => s.progress.step < s.config.totalSteps && Waiting(s) && WarmingUp(s)
    case RoundTrain => s.progress.step < s.config.totalSteps && Training(h, s)
    case RoundWitness => s.progress.step < s.config.totalSteps && Training(h, s)
    case Cooldown => s.progress.step <= s.config.totalSteps && CoolingDown(s)
    case Finished => s.progress.step == s.config.totalSteps && Waiting(s)
    case Paused => s.progress.step <= s.config.totalSteps && Waiting(s)
  }

  ghost predicate Inv(h: Hashes, s: State) {
    && s.progress.step >= 1
    && |s.epoch.clients| + |s.epoch.exitedClients| <= SOLANA_MAX_NUM_CLIENTS
    && RingOk(s)
    && StageOk(h, s)
  }

  // ----- client lists -----

  function Ids(clients: seq<Client>): seq<NodeId> {
    seq(|clients|, i requires 0 <= i < |clients| => clients[i].id)
  }

  /** The same clients, at the same indices, in any state of health. */
  predicate SameIds(a: seq<Client>, b: seq<Client>) {
    |a| == |b| && forall i | 0 <= i < |a| :: a[i].id == b[i].id
  }

  predicate AllHealthy(clients: seq<Client>) {
    forall i | 0 <= i < |clients| :: clients[i].state == Healthy
  }

  lemma {:induction false} IdsOfConcat(a: seq<Client>, b: seq<Client>)
    ensures Ids(a + b) == Ids(a) + Ids(b)
  {
  }

  lemma {:induction false} PurgeKeepsIds(clients: seq<Client>, height: nat)
    ensures multiset(Ids(Staying(clients))) + multiset(Ids(Leaving(clients, height))) == multiset(Ids(clients))
  {
    if clients != [] {
      var n := |clients| - 1;
      var last := clients[n];
      PurgeKeepsIds(clients[..n], height);
      assert Ids(clients) == Ids(clients[..n]) + [last.id];
      var stay, leave := Staying(clients[..n]), Leaving(clients[..n], height);
      if last.state == Healthy {
        assert Staying(clients) == stay + [last] && Leaving(clients, height) == leave;
        IdsOfConcat(stay, [last]);
        assert Ids([last]) == [last.id];
      } else {
        var left := last.(exitedHeight := height);
        assert Staying(clients) == stay && Leaving(clients, height) == leave + [left];
        IdsOfConcat(leave, [left]);
        assert Ids([left]) == [last.id];
      }
    }
  }

  lemma {:induction false} PurgeSorts(clients: seq<Client>, height: nat)
    ensures |Staying(clients)| + |Leaving(clients, height)| == |clients|
    ensures AllHealthy(Staying(clients))
    ensures forall c | c in Leaving(clients, height) :: c.state != Healthy && c.exitedHeight == height
  {
    if clients != [] {
      PurgeSorts(clients[..|clients| - 1], height);
    }
  }

  /** Purging splits the list: nobody is lost, nobody is duplicated, and only the healthy stay. */
  lemma PurgeSplits(clients: seq<Client>, height: nat)
    ensures |Staying(clients)| + |Leaving(clients, height)| == |clients|
    ensures AllHealthy(Staying(clients))
    ensures multiset(Ids(Staying(clients))) + multiset(Ids(Leaving(clients, height))) == multiset(Ids(clients))
    ensures forall c | c in Leaving(clients, height) :: c.state != Healthy && c.exitedHeight == height
  {
    PurgeKeepsIds(clients, height);
    PurgeSorts(clients, height);
  }

  /** Purging a list of healthy clients changes nothing. */
  lemma {:induction false} HealthyStay(clients: seq<Client>, height: nat)
    requires AllHealthy(clients)
    ensures Staying(clients) == clients && Leaving(clients, height) == []
  {
    if clients != [] {
      var n := |clients| - 1;
      HealthyStay(clients[..n], height);
      assert clients == clients[..n] + [clients[n]];
    }
  }

  lemma {:induction false} LeavingFits(clients: seq<Client>, height: nat)
    ensures |Leaving(clients, height)| <= |clients|
  {
    if clients != [] {
      LeavingFits(clients[..|clients| - 1], height);
    }
  }

  lemma PurgeStep(clients: seq<Client>, n: nat, height: nat)
    requires n < |clients|
    ensures Staying(clients[..n + 1])
            == Staying(clients[..n]) + if clients[n].state == Healthy then [clients[n]] else []
    ensures Leaving(clients[..n + 1], height)
            == Leaving(clients[..n], height)
               + if clients[n].state == Healthy then [] else [clients[n].(exitedHeight := height)]
  {
    assert clients[..n + 1][..n] == clients[..n];
  }

  lemma {:induction false} WithdrawFromKeepsIds(clients: seq<Client>, i: nat)
    ensures SameIds(clients, WithdrawFrom(clients, i).0)
    decreases |clients| - i
  {
    if CanWithdraw(clients, i) {
      WithdrawFromKeepsIds(WithdrawAt(clients, i), i + 1);
    }
  }

  /** Withdrawing everybody succeeds exactly when everybody from `i` on is healthy. */
  lemma {:induction false} WithdrawFromSucceedsIff(clients: seq<Client>, i: nat)
    requires i <= |clients|
    ensures WithdrawFrom(clients, i).1 <==> forall k | i <= k < |clients| :: clients[k].state == Healthy
    ensures |WithdrawFrom(clients, i).0| == |clients|
    ensures WithdrawFrom(clients, i).1 ==>
              forall k | i <= k < |clients| :: WithdrawFrom(clients, i).0[k] == clients[k].(state := Withdrawn)
    ensures forall k | 0 <= k < i :: WithdrawFrom(clients, i).0[k] == clients[k]
    decreases |clients| - i
  {
    if CanWithdraw(clients, i) {
      var next := WithdrawAt(clients, i);
      WithdrawFromSucceedsIff(next, i + 1);
      assert forall k | i < k < |clients| :: next[k] == clients[k];
    }
  }

  // ----- building blocks of the transitions -----

  lemma PurgeCannotOverflow(e: EpochState, height: nat)
    requires |e.clients| + |e.exitedClients| <= SOLANA_MAX_NUM_CLIENTS
    ensures MoveClientsToExited(e, height).Running?
    ensures var e' := MoveClientsToExited(e, height).value;
            && |e'.clients| + |e'.exitedClients| == |e.clients| + |e.exitedClients|
            && |e'.clients| <= |e.clients|
            && AllHealthy(e'.clients)
            && e' == e.(clients := e'.clients, exitedClients := e'.exitedClients)
  {
    PurgeSplits(e.clients, height);
  }

  /** Changing the client list leaves the ring alone. */
  lemma RingIgnoresClients(s: State, t: State)
    requires RingOk(s)
    requires t.config == s.config && t.batchRule == s.batchRule
    requires t.epoch.rounds == s.epoch.rounds && t.epoch.roundsHead == s.epoch.roundsHead
    ensures RingOk(t)
  {
    assert forall k: nat | k < NUM_STORED_ROUNDS :: Behind(t.epoch, k) == Behind(s.epoch, k);
    assert SlotOk(s, 1) ==> SlotOk(t, 1);
    assert SlotOk(s, 2) ==> SlotOk(t, 2);
    assert SlotOk(s, 3) ==> SlotOk(t, 3);
  }

  /** So does anything that happens to the witnesses of the current round. */
  lemma RingIgnoresCurrentWitnesses(s: State, t: State, witnesses: seq<Witness>)
    requires RingOk(s)
    requires t.config == s.config && t.batchRule == s.batchRule
    requires t.epoch.roundsHead == s.epoch.roundsHead
    requires t.epoch.rounds == SetCurrentRound(s.epoch, Behind(s.epoch, 0).(witnesses := witnesses)).rounds
    ensures RingOk(t)
    ensures Behind(t.epoch, 0) == Behind(s.epoch, 0).(witnesses := witnesses)
  {
    assert forall k: nat | 0 < k < NUM_STORED_ROUNDS :: Behind(t.epoch, k) == Behind(s.epoch, k);
    assert SlotOk(s, 1) ==> SlotOk(t, 1);
    assert SlotOk(s, 2) ==> SlotOk(t, 2);
    assert SlotOk(s, 3) ==> SlotOk(t, 3);
  }

  /** A round may start: at the head of a fresh epoch, or after a round that closed. */
  predicate ReadyToTrain(s: State)
    requires s.epoch.roundsHead < NUM_STORED_ROUNDS
  {
    var r := Behind(s.epoch, 0);
    if s.epoch.firstRound then r.height == 0
    else Closed(s.config, r) && r.clientsLen >= |s.epoch.clients|
  }

  /** The round that starts next. */
  function RoundToStart(s: State, seed: nat): Round
    requires s.epoch.roundsHead < NUM_STORED_ROUNDS
  {
    var r := Behind(s.epoch, 0);
    if s.epoch.firstRound then Round([], s.progress.epochStartDataIndex, seed, 0, |s.epoch.clients|, 0)
    else Round([], r.dataIndex + s.BatchAt(r.dataIndex), seed, r.height + 1, |s.epoch.clients|, 0)
  }

  function HeadToStart(s: State): nat {
    if s.epoch.firstRound then 0 else (s.epoch.roundsHead + 1) % NUM_STORED_ROUNDS
  }

  /** The state once the next round has started. */
  function RoundStarted(s: State, now: nat, seed: nat): State
    requires s.epoch.roundsHead < NUM_STORED_ROUNDS
  {
    var head := HeadToStart(s);
    s.(runState := RoundTrain, runStateStart := now,
       epoch := s.epoch.(roundsHead := head, rounds := s.epoch.rounds[head := RoundToStart(s, seed)]))
  }

  lemma StartRoundTrainRuns(s: State, now: nat, seed: nat)
    requires s.epoch.roundsHead < NUM_STORED_ROUNDS && s.runState != RoundTrain
    ensures StartRoundTrain(s, now, seed, 0) == Running(RoundStarted(s, now, seed))
  {
  }

  /** Starting a round pushes it onto the ring, and the rounds before it move back by one, if there are any. */
  lemma StartRoundTrainKeepsRing(s: State, now: nat, seed: nat)
    requires RingOk(s) && ReadyToTrain(s)
    ensures RingOk(RoundStarted(s, now, seed))
    ensures Behind(RoundStarted(s, now, seed).epoch, 0) == RoundToStart(s, seed)
    ensures forall k | 0 < k < NUM_STORED_ROUNDS ::
              Behind(RoundStarted(s, now, seed).epoch, k) == Behind(s.epoch, if s.epoch.firstRound then k else k - 1)
  {
    var t := RoundStarted(s, now, seed);
    if s.epoch.firstRound {
      RingStartsOver(s, t);
    } else {
      RingMovesOn(s, t, RoundToStart(s, seed));
    }
  }

  lemma RingStartsOver(s: State, t: State)
    requires RingOk(s) && Behind(s.epoch, 0).height == 0
    requires t.config == s.config && t.batchRule == s.batchRule
    requires t.epoch.roundsHead == 0
    requires t.epoch.rounds[1..] == s.epoch.rounds[1..]
    requires t.epoch.rounds[0].height == 0 && t.epoch.rounds[0].tieBreakerTasks == 0
    ensures RingOk(t)
  {
    assert Behind(t.epoch, 1) == Behind(s.epoch, 1) by { assert t.epoch.rounds[1..][2] == s.epoch.rounds[1..][2]; }
    assert Behind(t.epoch, 2) == Behind(s.epoch, 2) by { assert t.epoch.rounds[1..][1] == s.epoch.rounds[1..][1]; }
    assert Behind(t.epoch, 3) == Behind(s.epoch, 3) by { assert t.epoch.rounds[1..][0] == s.epoch.rounds[1..][0]; }
    assert SlotOk(s, 1) && SlotOk(s, 2) && SlotOk(s, 3);
  }

  lemma RingMovesOn(s: State, t: State, r: Round)
    requires RingOk(s)
    requires t.config == s.config && t.batchRule == s.batchRule
    requires t.epoch.roundsHead == (s.epoch.roundsHead + 1) % NUM_STORED_ROUNDS
    requires t.epoch.rounds == s.epoch.rounds[t.epoch.roundsHead := r]
    requires Linked(s, Behind(s.epoch, 0), r) && r.tieBreakerTasks == 0
    ensures RingOk(t)
  {
    var e, e' := s.epoch, t.epoch;
    assert Behind(e', 0) == r && Behind(e', 1) == Behind(e, 0);
    assert Behind(e', 2) == Behind(e, 1) && Behind(e', 3) == Behind(e, 2);
    assert SlotOk(t, 1);
    assert SlotOk(t, 2) by { assert SlotOk(s, 1); }
    assert SlotOk(t, 3) by { assert SlotOk(s, 2); }
  }
}
