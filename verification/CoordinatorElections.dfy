/** The selection of a round is the same whenever it is asked for: while the round runs, and in the rounds after. */
module CoordinatorElections {
  import opened Bytes
  import opened Protocol
  import opened Committees
  import opened CoordinatorModel
  import opened CoordinatorInvariant
  import opened CoordinatorWitnesses
  import opened CoordinatorHealth
  import opened CoordinatorRuns
  import opened CoordinatorEpochs

  /**
  The selection of the round `k` back from the current one, for `k` up to two, as long as the epoch has had that many:
  it is computed from the number of clients and the seed that the round recorded at its start, without tie breakers.
  */
  lemma SelectionOfEarlierRound(h: Hashes, s: State, k: nat)
    requires RingOk(s) && k <= 2 && k <= Behind(s.epoch, 0).height
    ensures var round := Behind(s.epoch, k);
            && round.height == Behind(s.epoch, 0).height - k
            && FromCoordinator(h, s, -(k as int))
               == New(h.sha, 0, s.config.witnessNodes, s.config.verificationPercent, round.clientsLen, round.randomSeed)
  {
    EarlierRounds(s);
    assert SlotOk(s, 1) && SlotOk(s, 2);
  }

  /**
  Over any run within an epoch: one round and two rounds after a round, its selection is still found at that distance,
  and is the very one that was in force while it ran; so a committee proof issued in a round verifies in the next.
  */
  lemma SelectionIsRemembered(h: Hashes, s: State, events: seq<Event>)
    requires Inv(h, s) && InRound(s) && Run(h, s, events).Running? && WithinEpoch(h, s, events)
    ensures var t := Run(h, s, events).value;
            && t.epoch.roundsHead < NUM_STORED_ROUNDS
            && Behind(t.epoch, 0).height >= Behind(s.epoch, 0).height
            && var age := Behind(t.epoch, 0).height - Behind(s.epoch, 0).height;
               age <= 2 ==> FromCoordinator(h, t, -age) == FromCoordinator(h, s, 0)
  {
    var t := Run(h, s, events).value;
    RunRemembers(h, s, events);
    RunsAreSafe(h, s, events);
    RunKeepsConfig(h, s, events);
    SelectionAtAge(h, s, t);
  }

  lemma SelectionAtAge(h: Hashes, s: State, t: State)
    requires RingOk(s) && RingOk(t) && t.config == s.config && Remembers(t.epoch, Behind(s.epoch, 0))
    ensures var age := Behind(t.epoch, 0).height - Behind(s.epoch, 0).height;
            age <= 2 ==> FromCoordinator(h, t, -age) == FromCoordinator(h, s, 0)
  {
    var age := Behind(t.epoch, 0).height - Behind(s.epoch, 0).height;
    if age <= 2 {
      SelectionOfEarlierRound(h, t, age);
      SelectionOfEarlierRound(h, s, 0);
    }
  }

  /**
  Who witnesses a reachable round, from nothing but the seed it recorded: a client's index is elected exactly when the
  trace of the shuffle from it ends among the first positions, as many as are configured, or thirty-two if none are.
  */
  lemma ElectedInRound(h: Hashes, s: State, index: nat) returns (bytes: seq<Byte>, election: seq<nat>)
    requires Inv(h, s) && InRound(s) && s.config.verificationPercent <= 100 && index < |s.epoch.clients|
    ensures |bytes| == 8 && FromLittleEndian(bytes) == Behind(s.epoch, 0).randomSeed % 0x1_0000_0000_0000_0000
    ensures TracesNode(h.sha, bytes, "witness", |s.epoch.clients|, election, index)
    ensures index in WitnessSelection(h, s, Behind(s.epoch, 0)).Elected(h.sha)
            <==> election[90] < if s.config.witnessNodes == 0 then 32 else s.config.witnessNodes
  {
    var round := Behind(s.epoch, 0);
    var duty;
    ElectionSucceedsInRounds(h, s);
    SelectionOfEarlierRound(h, s, 0);
    bytes, duty, election := IssuedFromScratch(h.sha, 0, s.config.witnessNodes, s.config.verificationPercent,
                                               round.clientsLen, round.randomSeed, index);
  }
}
