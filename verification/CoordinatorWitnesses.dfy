/** Counting the witnesses of a round, and the transitions that record them. */
module CoordinatorWitnesses {
  import opened Wrappers
  import opened Protocol
  import opened Committees
  import opened CoordinatorModel
  import opened CoordinatorInvariant

  /** The client indices that have reported in a round. */
  ghost function Reporters(witnesses: seq<Witness>): set<nat> {
    set i | 0 <= i < |witnesses| :: witnesses[i].proof.index
  }

  predicate DistinctIndices(witnesses: seq<Witness>) {
    forall i, j | 0 <= i < j < |witnesses| :: witnesses[i].proof.index != witnesses[j].proof.index
  }

  lemma {:induction false} ReportersSize(witnesses: seq<Witness>)
    requires DistinctIndices(witnesses)
    ensures |Reporters(witnesses)| == |witnesses|
  {
    if witnesses != [] {
      var n := |witnesses| - 1;
      ReportersSize(witnesses[..n]);
      assert Reporters(witnesses) == Reporters(witnesses[..n]) + {witnesses[n].proof.index};
      assert witnesses[n].proof.index !in Reporters(witnesses[..n]);
    }
  }

  lemma {:induction false} SubsetSize<T>(a: set<T>, b: set<T>)
    requires a <= b
    ensures |a| <= |b| && (|a| == |b| <==> a == b)
  {
    assert b == a + (b - a);
  }

  /** At most the elected witnesses are recorded, and as many only when each of them is. */
  lemma WitnessesFitElection(h: Hashes, s: State, r: Round)
    requires WitnessesOk(h, s, r)
    ensures var elected := WitnessSelection(h, s, r).Elected(h.sha);
            && Reporters(r.witnesses) <= elected
            && |r.witnesses| <= |elected| == WitnessSelection(h, s, r).ElectedCount() <= SOLANA_MAX_NUM_WITNESSES
            && (|r.witnesses| == |elected| <==> Reporters(r.witnesses) == elected)
  {
    ReportersSize(r.witnesses);
    ElectedSize(WitnessSelection(h, s, r), h.sha);
    SubsetSize(Reporters(r.witnesses), WitnessSelection(h, s, r).Elected(h.sha));
  }

  // ----- scanning the recorded witnesses for a sender -----

  predicate InRange(witnesses: seq<Witness>, clients: seq<Client>) {
    forall i | 0 <= i < |witnesses| :: witnesses[i].proof.index < |clients|
  }

  predicate Reported(witnesses: seq<Witness>, clients: seq<Client>, from: NodeId) {
    exists i :: 0 <= i < |witnesses| && VerifyClient(from, witnesses[i].proof.index, clients)
  }

  /** The scan runs off the client list: it meets a stale index before it meets the sender. */
  predicate ScanRunsOff(witnesses: seq<Witness>, clients: seq<Client>, from: NodeId) {
    exists i :: 0 <= i < |witnesses|
      && witnesses[i].proof.index >= |clients| && !Reported(witnesses[..i], clients, from)
  }

  /** The scan panics exactly when it runs off, and otherwise finds out whether the sender has reported. */
  lemma {:induction false} AlreadyReportedMeaning(witnesses: seq<Witness>, clients: seq<Client>, from: NodeId)
    ensures AlreadyReported(witnesses, clients, from).Panicked? <==> ScanRunsOff(witnesses, clients, from)
    ensures !ScanRunsOff(witnesses, clients, from) ==>
              AlreadyReported(witnesses, clients, from) == Running(Reported(witnesses, clients, from))
  {
    if witnesses == [] {
    } else if witnesses[0].proof.index >= |clients| {
      assert witnesses[..0] == [];
    } else {
      AlreadyReportedMeaning(witnesses[1..], clients, from);
      ScanRunsOffStep(witnesses, clients, from);
      ReportedStep(witnesses, clients, from);
    }
  }

  lemma ReportedStep(witnesses: seq<Witness>, clients: seq<Client>, from: NodeId)
    requires witnesses != []
    ensures Reported(witnesses, clients, from)
            <==> VerifyClient(from, witnesses[0].proof.index, clients) || Reported(witnesses[1..], clients, from)
  {
    var rest := witnesses[1..];
    if i :| 0 <= i < |witnesses| && VerifyClient(from, witnesses[i].proof.index, clients) {
      assert i > 0 ==> rest[i - 1] == witnesses[i];
    }
    if i :| 0 <= i < |rest| && VerifyClient(from, rest[i].proof.index, clients) {
      assert witnesses[i + 1] == rest[i];
    }
  }

  lemma ScanRunsOffStep(witnesses: seq<Witness>, clients: seq<Client>, from: NodeId)
    requires witnesses != [] && witnesses[0].proof.index < |clients|
    ensures ScanRunsOff(witnesses, clients, from)
            <==> clients[witnesses[0].proof.index].id != from && ScanRunsOff(witnesses[1..], clients, from)
  {
    var rest := witnesses[1..];
    if i :| 0 <= i < |witnesses| && witnesses[i].proof.index >= |clients| && !Reported(witnesses[..i], clients, from) {
      assert i > 0 && rest[i - 1] == witnesses[i] && witnesses[..i][1..] == rest[..i - 1];
      ReportedStep(witnesses[..i], clients, from);
    }
    if clients[witnesses[0].proof.index].id != from {
      if i :| 0 <= i < |rest| && rest[i].proof.index >= |clients| && !Reported(rest[..i], clients, from) {
        var prefix := witnesses[..i + 1];
        assert rest[i] == witnesses[i + 1] && prefix[1..] == rest[..i] && prefix[0] == witnesses[0];
        ReportedStep(prefix, clients, from);
      }
    }
  }

  /** Where every recorded index still names a client the scan cannot run off. */
  lemma InRangeScans(witnesses: seq<Witness>, clients: seq<Client>, from: NodeId)
    requires InRange(witnesses, clients)
    ensures !ScanRunsOff(witnesses, clients, from)
  {
  }

  // ----- recording a witness in a training round -----

  predicate InRound(s: State) {
    s.runState == RoundTrain || s.runState == RoundWitness
  }

  /** In a round the election never fails for want of clients, only for an impossible percentage. */
  lemma ElectionSucceedsInRounds(h: Hashes, s: State)
    requires Inv(h, s) && InRound(s)
    ensures FromCoordinator(h, s, 0)
            == if s.config.verificationPercent > 100 then Failure(InvalidCommitteeSelection)
               else Success(WitnessSelection(h, s, Behind(s.epoch, 0)))
  {
  }

  /** The number of messages that ends a round early is the number of elected witnesses. */
  lemma TargetIsElectedCount(h: Hashes, s: State)
    requires Inv(h, s) && InRound(s)
    ensures s.WitnessTarget() == WitnessSelection(h, s, Behind(s.epoch, 0)).ElectedCount()
            == |WitnessSelection(h, s, Behind(s.epoch, 0)).Elected(h.sha)|
  {
    ElectedSize(WitnessSelection(h, s, Behind(s.epoch, 0)), h.sha);
  }

  /** A message is admissible: it carries its sender's own proof of election, and it is the first. */
  predicate Admissible(h: Hashes, s: State, from: NodeId, w: Witness)
    requires s.epoch.roundsHead < NUM_STORED_ROUNDS
  {
    var r := Behind(s.epoch, 0);
    && s.config.verificationPercent <= 100
    && VerifyClient(from, w.proof.index, s.epoch.clients)
    && w.proof.index < r.clientsLen
    && w.proof == WitnessSelection(h, s, r).GetWitness(h.sha, w.proof.index)
    && w.proof.isWitness
    && !Reported(r.witnesses, s.epoch.clients, from)
  }

  /** The state after an admissible message. */
  function WitnessAdded(s: State, w: Witness, now: nat): State
    requires s.epoch.roundsHead < NUM_STORED_ROUNDS
  {
    var r := Behind(s.epoch, 0);
    var s1 := s.(epoch := SetCurrentRound(s.epoch, r.(witnesses := r.witnesses + [w])));
    if |r.witnesses| + 1 == s.WitnessTarget() && s.runState == RoundTrain
    then s1.(runState := RoundWitness, runStateStart := now)
    else s1
  }

  lemma AdmissibleWitnessIsNew(h: Hashes, s: State, from: NodeId, w: Witness)
    requires Inv(h, s) && InRound(s) && Admissible(h, s, from, w)
    ensures var r := Behind(s.epoch, 0);
            var r' := r.(witnesses := r.witnesses + [w]);
            && WitnessesOk(h, s, r')
            && Reporters(r'.witnesses) == Reporters(r.witnesses) + {w.proof.index}
            && |r.witnesses| < WitnessSelection(h, s, r).ElectedCount() <= SOLANA_MAX_NUM_WITNESSES
  {
    var r := Behind(s.epoch, 0);
    var r' := r.(witnesses := r.witnesses + [w]);
    assert w.proof.index in WitnessSelection(h, s, r).Elected(h.sha);
    assert WitnessesOk(h, s, r');
    assert r'.witnesses[..|r.witnesses|] == r.witnesses && r'.witnesses[|r.witnesses|] == w;
    ReportersGrow(r.witnesses, w);
    WitnessesFitElection(h, s, r');
  }

  lemma ReportersGrow(witnesses: seq<Witness>, w: Witness)
    ensures Reporters(witnesses + [w]) == Reporters(witnesses) + {w.proof.index}
  {
    var all := witnesses + [w];
    assert all[|witnesses|] == w;
    assert forall i | 0 <= i < |witnesses| :: all[i] == witnesses[i];
  }

  /** Exactly the admissible messages are accepted; the list of witnesses is never full. */
  lemma AddWitnessMeaning(h: Hashes, s: State, from: NodeId, w: Witness, now: nat)
    requires Inv(h, s) && InRound(s)
    ensures AddWitness(h, s, from, w, now).Running?
    ensures var step := AddWitness(h, s, from, w, now).value;
            && (Admissible(h, s, from, w) ==> step == Step(WitnessAdded(s, w, now), Accepted))
            && (!Admissible(h, s, from, w) ==>
                  step.state == s && step.reply.Rejected? && step.reply.error != WitnessesFull)
  {
    var r := Behind(s.epoch, 0);
    var selection := WitnessSelection(h, s, r);
    ElectionSucceedsInRounds(h, s);
    AlreadyReportedMeaning(r.witnesses, s.epoch.clients, from);
    if s.config.verificationPercent <= 100 && VerifyClient(from, w.proof.index, s.epoch.clients) {
      VerifyWitnessIffIssued(selection, h.sha, w.proof);
    }
    if Admissible(h, s, from, w) {
      AdmissibleWitnessIsNew(h, s, from, w);
      assert AddWitness(h, s, from, w, now) == RecordWitness(s, from, w, now);
    }
  }

  /**
  The round ends early with a message exactly when every elected witness has now reported,
  whether the number of witnesses is configured or left to the coordinator.
  */
  lemma EarlySwitchIffAllReported(h: Hashes, s: State, from: NodeId, w: Witness, now: nat)
    requires Inv(h, s) && s.runState == RoundTrain
    ensures Admissible(h, s, from, w) ==>
              var s' := WitnessAdded(s, w, now);
              var r, r' := Behind(s.epoch, 0), Behind(s'.epoch, 0);
              && Reporters(r'.witnesses) == Reporters(r.witnesses) + {w.proof.index}
              && (s'.runState == RoundWitness
                  <==> Reporters(r'.witnesses) == WitnessSelection(h, s, r).Elected(h.sha))
  {
    if Admissible(h, s, from, w) {
      AdmissibleWitnessIsNew(h, s, from, w);
      TargetIsElectedCount(h, s);
      var r := Behind(s.epoch, 0);
      WitnessesFitElection(h, s, r.(witnesses := r.witnesses + [w]));
    }
  }

  lemma WitnessAddedKeepsWitnesses(h: Hashes, s: State, from: NodeId, w: Witness, now: nat)
    requires Inv(h, s) && InRound(s) && Admissible(h, s, from, w)
    ensures var s', r := WitnessAdded(s, w, now), Behind(s.epoch, 0);
            && RingOk(s') && WitnessesOk(h, s', Behind(s'.epoch, 0))
            && Behind(s'.epoch, 0) == r.(witnesses := r.witnesses + [w])
  {
    var s' := WitnessAdded(s, w, now);
    var r := Behind(s.epoch, 0);
    RingIgnoresCurrentWitnesses(s, s', r.witnesses + [w]);
    AdmissibleWitnessIsNew(h, s, from, w);
    assert WitnessSelection(h, s', Behind(s'.epoch, 0)) == WitnessSelection(h, s, r);
  }

  lemma WitnessAddedKeepsInv(h: Hashes, s: State, from: NodeId, w: Witness, now: nat)
    requires Inv(h, s) && InRound(s) && Admissible(h, s, from, w)
    ensures Inv(h, WitnessAdded(s, w, now))
  {
    WitnessAddedKeepsWitnesses(h, s, from, w, now);
    assert Training(h, WitnessAdded(s, w, now));
  }
}
