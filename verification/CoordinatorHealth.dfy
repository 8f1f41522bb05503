/** Health checks: when they panic, what they change, and whom they can never drop. */
module CoordinatorHealth {
  import opened Wrappers
  import opened Bytes
  import opened Blooms
  import opened Protocol
  import opened Sequences
  import opened Committees
  import opened CoordinatorModel
  import opened CoordinatorInvariant
  import opened CoordinatorWitnesses
  import opened CoordinatorSteps

  // ----- rounds behind the current one -----

  /**
  `PreviousRound` is absent exactly at height zero and is the round one lower otherwise. Two back
  the lookup is right from height two on; at height one it answers with a slot that was never used.
  */
  lemma EarlierRounds(s: State)
    requires RingOk(s)
    ensures var height := Behind(s.epoch, 0).height;
            && PreviousRound(s.epoch) == (if height == 0 then None else Some(Behind(s.epoch, 1)))
            && (height >= 1 ==> Behind(s.epoch, 1).height == height - 1)
            && PreviousPreviousRound(s.epoch)
               == (if height == 0 then None
                   else if height == 1 then Some(ZERO_ROUND)
                   else Some(Behind(s.epoch, 2)))
            && (height >= 2 ==> Behind(s.epoch, 2).height == height - 2)
            && (height >= 3 ==> Behind(s.epoch, 3).height == height - 3)
  {
    assert SlotOk(s, 1) && SlotOk(s, 2) && SlotOk(s, 3);
  }

  // ----- one check -----

  /** The check names a client of the previous round and proves its committee. */
  predicate Verified(h: Hashes, s: State, id: NodeId, proof: CommitteeProof) {
    match PreviousRound(s.epoch)
    case None => false
    case Some(round) =>
      && proof.index < round.clientsLen
      && VerifyClient(id, proof.index, s.epoch.clients)
      && FromCoordinator(h, s, -1).Success?
      && FromCoordinator(h, s, -1).value.totalNodes == round.clientsLen
      && proof == FromCoordinator(h, s, -1).value.GetCommittee(h.sha, proof.index)
  }

  /** How many witnesses must vouch for a trainer of the previous round. */
  function NeededVouchers(s: State): nat
    requires s.epoch.roundsHead < NUM_STORED_ROUNDS
    requires Closed(s.config, Behind(s.epoch, 1))
  {
    Quorum(s.config, |Behind(s.epoch, 1).witnesses|).value
  }

  predicate HealthCheckable(s: State) {
    RingOk(s) && Behind(s.epoch, 0).height >= 2
  }

  lemma PreviousIsClosed(s: State)
    requires HealthCheckable(s)
    ensures PreviousRound(s.epoch) == Some(Behind(s.epoch, 1))
    ensures Closed(s.config, Behind(s.epoch, 1)) && Behind(s.epoch, 1).tieBreakerTasks == 0
  {
    EarlierRounds(s);
    assert SlotOk(s, 1);
  }

  /** A check errs unless it verifies; it panics on a verifier, and otherwise compares the score. */
  lemma IsHealthyMeaning(h: Hashes, s: State, id: NodeId, proof: CommitteeProof)
    requires HealthCheckable(s)
    ensures Closed(s.config, Behind(s.epoch, 1))
    ensures var verdict := IsHealthy(h, s, id, proof);
            if !Verified(h, s, id, proof) then verdict.Running? && verdict.value.Failure?
            else if proof.committee != Trainer then verdict == Panicked(CommitteeDuty)
            else verdict == Running(Success(
                   HealthScore(h, id, Behind(s.epoch, 1).witnesses) >= NeededVouchers(s)))
  {
    PreviousIsClosed(s);
    var round := Behind(s.epoch, 1);
    var selected := FromCoordinator(h, s, -1);
    if selected.Success? && VerifyClient(id, proof.index, s.epoch.clients) && proof.index < round.clientsLen {
      VerifyCommitteeIffIssued(selected.value, h.sha, proof);
    }
  }

  /** Without verifiers everybody is a trainer, so no check can panic. */
  lemma TrainersOnly(h: Hashes, s: State, id: NodeId, proof: CommitteeProof)
    requires HealthCheckable(s) && s.config.verificationPercent == 0
    requires Verified(h, s, id, proof)
    ensures proof.committee == Trainer
  {
    PreviousIsClosed(s);
  }

  // ----- a list of checks -----

  predicate Unhealthy(h: Hashes, s: State, check: (NodeId, CommitteeProof)) {
    IsHealthy(h, s, check.0, check.1) == Running(Success(false))
  }

  /** Some check asks after a verifier, and the ones before it are all in order. */
  predicate AsksAfterVerifier(h: Hashes, s: State, checks: HealthChecks) {
    exists k :: 0 <= k < |checks|
      && Verified(h, s, checks[k].0, checks[k].1) && checks[k].1.committee != Trainer
      && forall j | 0 <= j < k :: Unhealthy(h, s, checks[j])
  }

  /** The verifier that is asked after comes first, or after a first check that is in order. */
  lemma AsksStep(h: Hashes, s: State, checks: HealthChecks)
    requires checks != []
    ensures AsksAfterVerifier(h, s, checks)
            <==> (Verified(h, s, checks[0].0, checks[0].1) && checks[0].1.committee != Trainer)
                 || (Unhealthy(h, s, checks[0]) && AsksAfterVerifier(h, s, checks[1..]))
  {
    var rest := checks[1..];
    if Unhealthy(h, s, checks[0]) {
      if k :| 0 <= k < |rest| && Verified(h, s, rest[k].0, rest[k].1) && rest[k].1.committee != Trainer
              && forall j | 0 <= j < k :: Unhealthy(h, s, rest[j])
      {
        assert checks[k + 1] == rest[k];
        assert forall j | 0 < j < k + 1 :: checks[j] == rest[j - 1];
      }
    }
    if k :| 0 <= k < |checks| && Verified(h, s, checks[k].0, checks[k].1) && checks[k].1.committee != Trainer
            && forall j | 0 <= j < k :: Unhealthy(h, s, checks[j])
    {
      if k > 0 {
        assert checks[k] == rest[k - 1];
        assert forall j | 0 <= j < k - 1 :: rest[j] == checks[j + 1];
      }
    }
  }

  lemma {:induction false} FirstRejectionMeaning(h: Hashes, s: State, checks: HealthChecks)
    requires HealthCheckable(s)
    ensures FirstRejection(h, s, checks).Panicked? <==> AsksAfterVerifier(h, s, checks)
    ensures FirstRejection(h, s, checks) == Running(None)
            <==> forall k | 0 <= k < |checks| :: Unhealthy(h, s, checks[k])
  {
    if checks != [] {
      FirstRejectionMeaning(h, s, checks[1..]);
      IsHealthyMeaning(h, s, checks[0].0, checks[0].1);
      AsksStep(h, s, checks);
      assert forall k | 0 < k < |checks| :: checks[k] == checks[1..][k - 1];
      assert forall k | 0 <= k < |checks| - 1 :: checks[1..][k] == checks[k + 1];
    }
  }

  /** Checks that all pass name clients that are still listed. */
  lemma AcceptedChecksAreInRange(h: Hashes, s: State, checks: HealthChecks)
    requires HealthCheckable(s) && FirstRejection(h, s, checks) == Running(None)
    ensures forall k | 0 <= k < |checks| :: checks[k].1.index < |s.epoch.clients|
  {
    FirstRejectionMeaning(h, s, checks);
    forall k | 0 <= k < |checks|
      ensures checks[k].1.index < |s.epoch.clients|
    {
      assert Unhealthy(h, s, checks[k]);
      IsHealthyMeaning(h, s, checks[k].0, checks[k].1);
    }
  }

  // ----- dropping -----

  predicate Named(checks: HealthChecks, i: nat) {
    exists k :: 0 <= k < |checks| && checks[k].1.index == i
  }

  /** A client after everybody named has been dropped. */
  function AfterDrop(client: Client, named: bool): Client {
    if named && client.state == Healthy then client.(state := Dropped) else client
  }

  ghost function Changed(before: seq<Client>, after: seq<Client>): set<nat>
    requires |before| == |after|
  {
    set i: nat | i < |before| && before[i] != after[i]
  }

  lemma NamedStep(checks: HealthChecks, i: nat)
    requires checks != []
    ensures var n := |checks| - 1;
            Named(checks, i) <==> Named(checks[..n], i) || i == checks[n].1.index
  {
    var n := |checks| - 1;
    if k :| 0 <= k < |checks| && checks[k].1.index == i {
      assert k < n ==> checks[..n][k] == checks[k];
    }
    if Named(checks[..n], i) {
      var k :| 0 <= k < n && checks[..n][k].1.index == i;
      assert checks[k].1.index == i;
    }
  }

  predicate DropsExactly(clients: seq<Client>, checks: HealthChecks, after: seq<Client>) {
    && |after| == |clients|
    && forall i | 0 <= i < |clients| :: after[i] == AfterDrop(clients[i], Named(checks, i))
  }

  /** Dropping one more client. */
  lemma DropStep(clients: seq<Client>, checks: HealthChecks, before: seq<Client>, after: seq<Client>)
    requires checks != [] && DropsExactly(clients, checks[..|checks| - 1], before)
    requires var index := checks[|checks| - 1].1.index;
             index < |clients| && after == before[index := AfterDrop(before[index], true)]
    ensures DropsExactly(clients, checks, after)
    ensures var index := checks[|checks| - 1].1.index;
            |Changed(clients, after)|
            == |Changed(clients, before)| + if before[index].state == Healthy then 1 else 0
  {
    var n := |checks| - 1;
    var index := checks[n].1.index;
    forall i | 0 <= i < |clients|
      ensures after[i] == AfterDrop(clients[i], Named(checks, i))
    {
      NamedStep(checks, i);
    }
    if before[index].state == Healthy {
      assert before[index] == clients[index];
      assert Changed(clients, after) == Changed(clients, before) + {index};
    } else {
      assert after == before;
    }
  }

  /** Dropping changes exactly the healthy clients that are named, to dropped, and counts the changes. */
  lemma {:induction false} DropNamedMeaning(clients: seq<Client>, checks: HealthChecks)
    requires forall k | 0 <= k < |checks| :: checks[k].1.index < |clients|
    ensures DropNamed(clients, checks).Running?
    ensures var (after, count) := DropNamed(clients, checks).value;
            DropsExactly(clients, checks, after) && count == |Changed(clients, after)|
  {
    if checks == [] {
      assert Changed(clients, clients) == {};
    } else {
      var n := |checks| - 1;
      assert forall k | 0 <= k < n :: checks[..n][k] == checks[k];
      DropNamedMeaning(clients, checks[..n]);
      DropStep(clients, checks, DropNamed(clients, checks[..n]).value.0, DropNamed(clients, checks).value.0);
    }
  }

  /** What a health check may ask of a coordinator at all. */
  predicate CheckAllowed(s: State) {
    !s.IsHalted() && s.epoch.roundsHead < NUM_STORED_ROUNDS && Behind(s.epoch, 0).height >= 2
  }

  /** The check is accepted: every named client is a proven, unhealthy trainer. */
  predicate CheckAccepted(h: Hashes, s: State, checks: HealthChecks) {
    CheckAllowed(s) && forall k | 0 <= k < |checks| :: Unhealthy(h, s, checks[k])
  }

  /**
  A health check panics exactly when it asks after a verifier. Otherwise it is all or nothing:
  accepted, it drops precisely the named clients that were healthy and returns their number;
  rejected, it changes nothing.
  */
  lemma HealthCheckMeaning(h: Hashes, s: State, checks: HealthChecks)
    requires Inv(h, s)
    ensures HealthCheck(h, s, checks).Panicked? <==> CheckAllowed(s) && AsksAfterVerifier(h, s, checks)
    ensures CheckAccepted(h, s, checks) ==>
              && HealthCheck(h, s, checks).Running?
              && var step := HealthCheck(h, s, checks).value;
                 && step.state == s.(epoch := s.epoch.(clients := step.state.epoch.clients))
                 && |step.state.epoch.clients| == |s.epoch.clients|
                 && (forall i | 0 <= i < |s.epoch.clients| ::
                       step.state.epoch.clients[i] == AfterDrop(s.epoch.clients[i], Named(checks, i)))
                 && step.reply == DroppedClients(|Changed(s.epoch.clients, step.state.epoch.clients)|)
    ensures HealthCheck(h, s, checks).Running? && !CheckAccepted(h, s, checks) ==>
              HealthCheck(h, s, checks).value.state == s && HealthCheck(h, s, checks).value.reply.Rejected?
  {
    if CheckAllowed(s) {
      FirstRejectionMeaning(h, s, checks);
      if CheckAccepted(h, s, checks) {
        AcceptedChecksAreInRange(h, s, checks);
        DropNamedMeaning(s.epoch.clients, checks);
      }
    }
  }

  lemma HealthCheckTouchesClients(h: Hashes, s: State, checks: HealthChecks)
    requires HealthCheck(h, s, checks).Running?
    ensures var t := HealthCheck(h, s, checks).value.state;
            t == s.(epoch := s.epoch.(clients := t.epoch.clients))
  {
  }

  lemma HealthCheckKeepsInv(h: Hashes, s: State, checks: HealthChecks)
    requires Inv(h, s) && HealthCheck(h, s, checks).Running?
    ensures Inv(h, HealthCheck(h, s, checks).value.state)
  {
    HealthCheckMeaning(h, s, checks);
    if CheckAccepted(h, s, checks) {
      var t := HealthCheck(h, s, checks).value.state;
      assert SameIds(s.epoch.clients, t.epoch.clients);
      ClientHealthKeepsInv(h, s, t.epoch.clients);
    }
  }

  lemma NoVerifiersNoPanic(h: Hashes, s: State, checks: HealthChecks)
    requires Inv(h, s) && s.config.verificationPercent == 0
    ensures HealthCheck(h, s, checks).Running?
  {
    HealthCheckMeaning(h, s, checks);
    if CheckAllowed(s) && AsksAfterVerifier(h, s, checks) {
      var k :| 0 <= k < |checks| && Verified(h, s, checks[k].0, checks[k].1) && checks[k].1.committee != Trainer;
      TrainersOnly(h, s, checks[k].0, checks[k].1);
      assert false;
    }
  }

  // ----- who is safe -----

  /** The witnesses whose blooms contain a client. */
  ghost function Vouchers(h: Hashes, id: NodeId, witnesses: seq<Witness>): set<nat> {
    set v: nat | v < |witnesses| && Contains(h.fnv, witnesses[v].participantBloom, h.sha(id))
  }

  lemma {:induction false} HealthScoreCounts(h: Hashes, id: NodeId, witnesses: seq<Witness>)
    ensures HealthScore(h, id, witnesses) == |Vouchers(h, id, witnesses)|
  {
    if witnesses == [] {
      assert Vouchers(h, id, witnesses) == {};
    } else {
      var n := |witnesses| - 1;
      HealthScoreCounts(h, id, witnesses[..n]);
      if n in Vouchers(h, id, witnesses) {
        assert Vouchers(h, id, witnesses) == Vouchers(h, id, witnesses[..n]) + {n};
      } else {
        assert Vouchers(h, id, witnesses) == Vouchers(h, id, witnesses[..n]);
      }
    }
  }

  /** The filter a witness sent was filled from some starting filter by adding items, `item` among them. */
  ghost predicate FilledWith(fnv: Fnv, b: WitnessBloom, item: seq<Byte>) {
    exists start: WitnessBloom, items: seq<seq<Byte>> :: b == AddAll(fnv, start, items) && item in items
  }

  /**
  A trainer whose hashed identity a quorum of the previous round's witnesses added to their
  participant filters, in whatever order and among whatever else, survives every health check.
  */
  lemma VouchedTrainerIsSafe(h: Hashes, s: State, checks: HealthChecks, i: nat, added: set<nat>)
    requires Inv(h, s) && HealthCheckable(s) && i < |s.epoch.clients|
    requires forall v | v in added :: v < |Behind(s.epoch, 1).witnesses|
               && FilledWith(h.fnv, Behind(s.epoch, 1).witnesses[v].participantBloom, h.sha(s.epoch.clients[i].id))
    requires Closed(s.config, Behind(s.epoch, 1)) && |added| >= NeededVouchers(s)
    ensures HealthCheck(h, s, checks).Running? ==>
              var after := HealthCheck(h, s, checks).value.state.epoch.clients;
              |after| == |s.epoch.clients| && after[i] == s.epoch.clients[i]
  {
    var id := s.epoch.clients[i].id;
    var witnesses := Behind(s.epoch, 1).witnesses;
    HealthCheckMeaning(h, s, checks);
    if CheckAccepted(h, s, checks) && Named(checks, i) {
      var k :| 0 <= k < |checks| && checks[k].1.index == i;
      assert Unhealthy(h, s, checks[k]);
      IsHealthyMeaning(h, s, checks[k].0, checks[k].1);
      HealthScoreCounts(h, id, witnesses);
      forall v | v in added
        ensures v in Vouchers(h, id, witnesses)
      {
        var start: WitnessBloom, items: seq<seq<Byte>> :|
          witnesses[v].participantBloom == AddAll(h.fnv, start, items) && h.sha(id) in items;
        NoFalseNegatives(h.fnv, start, items, h.sha(id));
      }
      SubsetSize(added, Vouchers(h, id, witnesses));
    }
  }

  // ----- who is not -----

  /** The filter holds these items only, and its `k`-th key tells `item` from all of them. */
  predicate TellsApart(fnv: Fnv, b: WitnessBloom, items: seq<seq<Byte>>, item: seq<Byte>, k: nat) {
    k < 8 && b == AddAll(fnv, Empty(b.keys, 1024), items) && !Covered(fnv, b.keys, 1024, items, item, b.keys[k])
  }

  /**
  The filter a witness sent was filled from an empty one by adding items, and some key tells `item` from all of them:
  under no key does any of them hash to the bit of `item` under that one.
  */
  ghost predicate FilledWithout(fnv: Fnv, b: WitnessBloom, item: seq<Byte>) {
    exists items: seq<seq<Byte>>, k: nat :: TellsApart(fnv, b, items, item, k)
  }

  lemma FilledWithoutIsDenied(fnv: Fnv, b: WitnessBloom, item: seq<Byte>)
    requires FilledWithout(fnv, b, item)
    ensures !Contains(fnv, b, item)
  {
    var items: seq<seq<Byte>>, k: nat :| TellsApart(fnv, b, items, item, k);
    ContainsIffCovered(fnv, b.keys, 1024, items, item);
  }

  /** None of these witnesses can have added the item. */
  ghost predicate AllWithout(fnv: Fnv, witnesses: seq<Witness>, without: set<nat>, item: seq<Byte>) {
    forall v | v in without :: v < |witnesses| && FilledWithout(fnv, witnesses[v].participantBloom, item)
  }

  /** Fewer than a quorum of the previous round's witnesses are left when those without the client are put aside. */
  ghost predicate Unseen(h: Hashes, s: State, id: NodeId)
    requires s.epoch.roundsHead < NUM_STORED_ROUNDS && Closed(s.config, Behind(s.epoch, 1))
  {
    exists without: set<nat> ::
      && AllWithout(h.fnv, Behind(s.epoch, 1).witnesses, without, h.sha(id))
      && |Behind(s.epoch, 1).witnesses| < NeededVouchers(s) + |without|
  }

  lemma WithoutAreNoVouchers(h: Hashes, id: NodeId, witnesses: seq<Witness>, without: set<nat>)
    requires AllWithout(h.fnv, witnesses, without, h.sha(id))
    ensures HealthScore(h, id, witnesses) + |without| <= |witnesses|
  {
    var vouchers := Vouchers(h, id, witnesses);
    HealthScoreCounts(h, id, witnesses);
    forall v | v in without
      ensures v !in vouchers
    {
      FilledWithoutIsDenied(h.fnv, witnesses[v].participantBloom, h.sha(id));
    }
    BoundedSetSize(vouchers + without, |witnesses|);
    assert |vouchers + without| == |vouchers| + |without|;
  }

  lemma UnseenLacksVouchers(h: Hashes, s: State, id: NodeId)
    requires s.epoch.roundsHead < NUM_STORED_ROUNDS && Closed(s.config, Behind(s.epoch, 1)) && Unseen(h, s, id)
    ensures HealthScore(h, id, Behind(s.epoch, 1).witnesses) < NeededVouchers(s)
  {
    var without: set<nat> :|
      && AllWithout(h.fnv, Behind(s.epoch, 1).witnesses, without, h.sha(id))
      && |Behind(s.epoch, 1).witnesses| < NeededVouchers(s) + |without|;
    WithoutAreNoVouchers(h, id, Behind(s.epoch, 1).witnesses, without);
  }

  /** The check proves a trainer of the previous round that too few witnesses saw. */
  ghost predicate ProvesUnseen(h: Hashes, s: State, check: (NodeId, CommitteeProof))
    requires s.epoch.roundsHead < NUM_STORED_ROUNDS && Closed(s.config, Behind(s.epoch, 1))
  {
    Verified(h, s, check.0, check.1) && check.1.committee == Trainer && Unseen(h, s, check.0)
  }

  /**
  The other half: checks with valid proofs of trainers that fewer than a quorum of the previous round's witnesses
  can have added, as a key of their filters tells, are accepted, and drop all of them that are healthy.
  */
  lemma UnseenTrainersAreDropped(h: Hashes, s: State, checks: HealthChecks)
    requires Inv(h, s) && CheckAllowed(s)
    requires Closed(s.config, Behind(s.epoch, 1))
    requires forall k | 0 <= k < |checks| :: ProvesUnseen(h, s, checks[k])
    ensures HealthCheck(h, s, checks).Running? && HealthCheck(h, s, checks).value.reply.DroppedClients?
    ensures var after := HealthCheck(h, s, checks).value.state.epoch.clients;
            && |after| == |s.epoch.clients|
            && forall k | 0 <= k < |checks| ::
                 var i := checks[k].1.index;
                 && i < |after| && after[i].id == checks[k].0
                 && after[i].state == if s.epoch.clients[i].state == Healthy then Dropped else s.epoch.clients[i].state
  {
    forall k | 0 <= k < |checks|
      ensures Unhealthy(h, s, checks[k]) && VerifyClient(checks[k].0, checks[k].1.index, s.epoch.clients)
      ensures Named(checks, checks[k].1.index)
    {
      assert ProvesUnseen(h, s, checks[k]);
      UnseenLacksVouchers(h, s, checks[k].0);
      IsHealthyMeaning(h, s, checks[k].0, checks[k].1);
    }
    HealthCheckMeaning(h, s, checks);
  }
}
